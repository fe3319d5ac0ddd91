/** Events written as bytes, the way section 9.2.6 of the HTML standard has a server send them, and what the parser
    hands over. The bytes are written out here: 32 is a space, 10 is LF. */
module SseRoundTrip {
  import opened Basics
  import opened Cutting
  import opened Sse

  const EVENT_FIELD: seq<byte> := [101, 118, 101, 110, 116, 58] // "event:"
  const DATA_FIELD: seq<byte> := [100, 97, 116, 97, 58]         // "data:"

  /** An event as it is sent: its name, the lines of its data, and whether a space follows the colons. */
  datatype Sent = Sent(name: Text, data: seq<Text>, spaced: bool)

  /** No NUL, no LF, and no leading space where none is added. */
  predicate Sendable(value: Text, spaced: bool) {
    && (forall i :: 0 <= i < |value| ==> value[i] != 0 && value[i] != 10)
    && (spaced || value == [] || value[0] != 32)
  }

  predicate CanSend(e: Sent) {
    && Sendable(e.name, e.spaced) && e.data != []
    && forall i :: 0 <= i < |e.data| ==> Sendable(e.data[i], e.spaced)
  }

  function Line(field: Text, value: Text, spaced: bool): Text {
    field + ((if spaced then [32] else []) + value)
  }

  function DataLines(data: seq<Text>, spaced: bool): seq<Text> {
    if data == [] then [] else [Line(DATA_FIELD, data[0], spaced)] + DataLines(data[1..], spaced)
  }

  /** The lines of an event; the last one is empty. */
  function LinesOf(e: Sent): seq<Text> {
    [Line(EVENT_FIELD, e.name, e.spaced)] + (DataLines(e.data, e.spaced) + [[]])
  }

  function Bytes(lines: seq<Text>): Text {
    if lines == [] then [] else lines[0] + ([10] + Bytes(lines[1..]))
  }

  function AllLines(es: seq<Sent>): seq<Text> {
    if es == [] then [] else LinesOf(es[0]) + AllLines(es[1..])
  }

  /** The data lines, separated by LF. */
  function Body(data: seq<Text>): Text {
    if data == [] then [] else if |data| == 1 then data[0] else data[0] + ([10] + Body(data[1..]))
  }

  function Received(es: seq<Sent>): seq<Event> {
    if es == [] then [] else [Event(es[0].name, Body(es[0].data))] + Received(es[1..])
  }

  // ---------- one line ----------

  /** The one optional space is dropped, and nothing else. */
  lemma {:induction false} ValueOfLine(field: Text, value: Text, spaced: bool)
    requires spaced || value == [] || value[0] != 32
    ensures field <= Line(field, value, spaced) && Value(Line(field, value, spaced), field) == value
  {
    var rest := (if spaced then [32] else []) + value;
    assert Line(field, value, spaced)[|field|..] == rest;
    if spaced {
      TailOfCons(32, value);
    } else {
      EmptyEnds(value);
    }
  }

  predicate Clean(line: Text) {
    forall i :: 0 <= i < |line| ==> line[i] != 0 && line[i] != 10
  }

  lemma {:induction false} LinesAreClean(value: Text, spaced: bool)
    requires Sendable(value, spaced)
    ensures Clean(Line(EVENT_FIELD, value, spaced)) && Clean(Line(DATA_FIELD, value, spaced))
  {
  }

  lemma {:induction false} NoDelimiter(line: Text)
    requires forall i :: 0 <= i < |line| ==> line[i] != 10
    ensures FirstOf(line, 10) == |line|
  {
    if line != [] {
      NoDelimiter(line[1..]);
    }
  }

  /** Clean lines are cut as they were written. */
  lemma {:induction false} CutAsWritten(lines: seq<Text>)
    requires forall i :: 0 <= i < |lines| ==> Clean(lines[i])
    ensures Lines(Bytes(lines), 10) == lines
  {
    if lines != [] {
      NoDelimiter(lines[0]);
      OneLine(lines[0], Bytes(lines[1..]), 10);
      CutAsWritten(lines[1..]);
      HeadAndTail(lines);
    }
  }

  lemma {:induction false} DataLinesAreClean(data: seq<Text>, spaced: bool)
    requires forall i :: 0 <= i < |data| ==> Sendable(data[i], spaced)
    ensures forall i :: 0 <= i < |DataLines(data, spaced)| ==> Clean(DataLines(data, spaced)[i])
  {
    if data != [] {
      LinesAreClean(data[0], spaced);
      DataLinesAreClean(data[1..], spaced);
    }
  }

  lemma {:induction false} AllLinesAreClean(es: seq<Sent>)
    requires forall i :: 0 <= i < |es| ==> CanSend(es[i])
    ensures forall i :: 0 <= i < |AllLines(es)| ==> Clean(AllLines(es)[i])
  {
    if es != [] {
      LinesAreClean(es[0].name, es[0].spaced);
      DataLinesAreClean(es[0].data, es[0].spaced);
      AllLinesAreClean(es[1..]);
    }
  }

  // ---------- one block ----------

  lemma {:induction false} DataFields(open: seq<Text>, data: seq<Text>, spaced: bool)
    requires forall i :: 0 <= i < |data| ==> Sendable(data[i], spaced)
    ensures Fields(open + DataLines(data, spaced), DATA) == Fields(open, DATA) + data
    ensures Fields(open + DataLines(data, spaced), EVENT) == Fields(open, EVENT)
    decreases |data|
  {
    if data == [] {
      EmptyEnds(open);
      EmptyEnds(Fields(open, DATA));
    } else {
      var line := Line(DATA_FIELD, data[0], spaced);
      DataFields(open + [line], data[1..], spaced);
      Regroup(open, [line], DataLines(data[1..], spaced));
      DataField(open, data[0], spaced);
      HeadAndTail(data);
      Regroup(Fields(open, DATA), [data[0]], data[1..]);
    }
  }

  lemma {:induction false} DataField(open: seq<Text>, value: Text, spaced: bool)
    requires Sendable(value, spaced)
    ensures var open' := open + [Line(DATA_FIELD, value, spaced)];
      Fields(open', DATA) == Fields(open, DATA) + [value] && Fields(open', EVENT) == Fields(open, EVENT)
  {
    var line := Line(DATA_FIELD, value, spaced);
    LinesAreClean(value, spaced);
    CStringWhole(line, NUL);
    ValueOfLine(DATA_FIELD, value, spaced);
    FieldsGrow(open, line, DATA);
    FieldsGrow(open, line, EVENT);
    FieldHeads(line);
  }

  lemma {:induction false} NameField(value: Text, spaced: bool)
    requires Sendable(value, spaced)
    ensures var open' := [Line(EVENT_FIELD, value, spaced)];
      Fields(open', EVENT) == [value] && Fields(open', DATA) == []
  {
    var line := Line(EVENT_FIELD, value, spaced);
    LinesAreClean(value, spaced);
    CStringWhole(line, NUL);
    ValueOfLine(EVENT_FIELD, value, spaced);
    FieldsGrow([], line, DATA);
    FieldsGrow([], line, EVENT);
    EmptyEnds([line]);
    FieldHeads(line);
  }

  lemma {:induction false} JoinIsBody(data: seq<Text>)
    requires data != []
    ensures Join(data) == Body(data)
  {
    if |data| > 1 {
      JoinFront(data);
      JoinIsBody(data[1..]);
    }
  }

  lemma {:induction false} JoinFront(data: seq<Text>)
    requires |data| > 1
    ensures Join(data) == data[0] + ([10] + Join(data[1..]))
    decreases |data|
  {
    var n := |data| - 1;
    if n > 1 {
      JoinFront(data[..n]);
      assert data[..n][1..] == data[1..][..n - 1];
    }
  }

  /** Lines that are not blank join the open block. */
  lemma {:induction false} EventsAfter(lines: seq<Text>, open: seq<Text>, rest: seq<Text>)
    requires forall i :: 0 <= i < |lines| ==> !IsBlank(lines[i])
    ensures EventsIn(lines + rest, open) == EventsIn(rest, open + lines)
    decreases |lines|
  {
    if lines == [] {
      EmptyEnds(open);
      EmptyEnds(rest);
    } else {
      assert (lines + rest)[1..] == lines[1..] + rest;
      EventsAfter(lines[1..], open + [lines[0]], rest);
      HeadAndTail(lines);
      Regroup(open, [lines[0]], lines[1..]);
    }
  }

  lemma {:induction false} NotBlank(value: Text, spaced: bool)
    requires Sendable(value, spaced)
    ensures !IsBlank(Line(EVENT_FIELD, value, spaced)) && !IsBlank(Line(DATA_FIELD, value, spaced))
  {
  }

  lemma {:induction false} DataNotBlank(data: seq<Text>, spaced: bool)
    requires forall i :: 0 <= i < |data| ==> Sendable(data[i], spaced)
    ensures forall i :: 0 <= i < |DataLines(data, spaced)| ==> !IsBlank(DataLines(data, spaced)[i])
  {
    if data != [] {
      NotBlank(data[0], spaced);
      DataNotBlank(data[1..], spaced);
    }
  }

  lemma {:induction false} BlockIsEvent(e: Sent)
    requires CanSend(e)
    ensures EventsOf([Line(EVENT_FIELD, e.name, e.spaced)] + DataLines(e.data, e.spaced))
      == [Event(e.name, Body(e.data))]
  {
    NameField(e.name, e.spaced);
    DataFields([Line(EVENT_FIELD, e.name, e.spaced)], e.data, e.spaced);
    EmptyEnds(e.data);
    JoinIsBody(e.data);
  }

  lemma {:induction false} BlockEnds(open: seq<Text>, rest: seq<Text>)
    ensures EventsIn([[]] + rest, open) == EventsOf(open) + EventsIn(rest, [])
  {
    TailOfCons([], rest);
  }

  /** The lines of one event give that event. */
  lemma {:induction false} OneReceived(e: Sent, rest: seq<Text>)
    requires CanSend(e)
    ensures EventsIn(LinesOf(e) + rest, []) == [Event(e.name, Body(e.data))] + EventsIn(rest, [])
  {
    var first, data := Line(EVENT_FIELD, e.name, e.spaced), DataLines(e.data, e.spaced);
    var block := [first] + data;
    NotBlank(e.name, e.spaced);
    DataNotBlank(e.data, e.spaced);
    assert LinesOf(e) + rest == block + ([[]] + rest);
    EventsAfter(block, [], [[]] + rest);
    EmptyEnds(block);
    BlockEnds(block, rest);
    BlockIsEvent(e);
  }

  lemma {:induction false} AllReceived(es: seq<Sent>)
    requires forall i :: 0 <= i < |es| ==> CanSend(es[i])
    ensures EventsIn(AllLines(es), []) == Received(es)
  {
    if es != [] {
      OneReceived(es[0], AllLines(es[1..]));
      AllReceived(es[1..]);
    }
  }

  lemma {:induction false} AcceptedAll(done: seq<Event>, events: seq<Event>, dispatch: Dispatch)
    requires forall past, e :: dispatch(past, e)
    ensures Handed(done, events, dispatch) == done + events
    decreases |events|
  {
    if events == [] {
      EmptyEnds(done);
    } else {
      AcceptedAll(done + [events[0]], events[1..], dispatch);
      HeadAndTail(events);
      Regroup(done, [events[0]], events[1..]);
    }
  }

  /** Sending events and feeding the bytes to a fresh parser, in whatever chunks, hands over exactly these events,
      each with its name and its data lines joined by LF: all of them, or up to the first that is refused. */
  lemma {:induction false} SentIsReceived(es: seq<Sent>, chunks: seq<Text>, dispatch: Dispatch)
    requires forall i :: 0 <= i < |es| ==> CanSend(es[i])
    requires Concat(chunks) == Bytes(AllLines(es))
    ensures var dispatched := FedAll(State([], FRESH), chunks, dispatch).run.dispatched;
      && dispatched == Handed([], Received(es), dispatch)
      && ((forall past, e :: dispatch(past, e)) ==> dispatched == Received(es))
  {
    AllLinesAreClean(es);
    CutAsWritten(AllLines(es));
    AllReceived(es);
    ParserHandsOverBlocks(chunks, dispatch);
    if forall past, e :: dispatch(past, e) {
      AcceptedAll([], Received(es), dispatch);
      EmptyEnds(Received(es));
    }
  }

  /** The same for the feeding loop. */
  method Receive(es: seq<Sent>, chunks: seq<Text>, dispatch: Dispatch) returns (dispatched: seq<Event>)
    requires forall i :: 0 <= i < |es| ==> CanSend(es[i])
    requires Concat(chunks) == Bytes(AllLines(es))
    ensures dispatched == Handed([], Received(es), dispatch)
  {
    SentIsReceived(es, chunks, dispatch);
    ParserHandsOverBlocks(chunks, dispatch);
    dispatched := Feed(chunks, dispatch);
  }
}
