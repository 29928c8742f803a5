/** The item-update loop both clients run over the server's event stream:
    read line by line until the end of the stream, stop when cancellation
    is requested, hand every `data:` line to the event parser, and send a
    message for the two item events. The stream is its sequence of lines;
    the token is the index of the first iteration that sees it set; the
    parser is an opaque function; the messenger is the sequence of
    messages sent. */
module EventStream {
  import opened Common
  import opened Text
  import opened Models

  /** What the event parser does with one line: an event, null, or a throw. */
  datatype ParseOutcome = ParsedEvent(event: OpenHABEvent) | NullEvent | ParseFailure

  /** How the loop ended: the stream ran out, the token was seen set, or an
      exception (from reading or from the parser) ended it; exceptions are
      logged and never leave the loop. */
  datatype StreamEnd = EndOfStream | Cancelled | Failed

  /** `line?.StartsWith("data:", InvariantCultureIgnoreCase) == true`. */
  function IsDataLine(line: Option<string>): (r: bool)
    ensures r ==> line.Some? && |line.value| >= 5
  {
    line.Some? && StartsWithIgnoreCase(line.value, "data:")
  }

  /** The message an event produces, if any. */
  function MessageFor(e: OpenHABEvent): (r: Option<ItemMessage>)
    ensures r.Some? <==> e.eventType == ItemStateEvent || e.eventType == ItemStateChangedEvent
    ensures e.eventType == ItemStateEvent ==> r == Some(UpdateItemMessage(e.itemName, e.value))
    ensures e.eventType == ItemStateChangedEvent ==> r == Some(ItemStateChangedMessage(e.itemName, e.value, e.oldValue))
  {
    match e.eventType
    case ItemStateEvent => Some(UpdateItemMessage(e.itemName, e.value))
    case ItemStateChangedEvent => Some(ItemStateChangedMessage(e.itemName, e.value, e.oldValue))
    case _ => None
  }

  /** The messages one line produces: none unless it is a data line that
      parses to one of the two item events. */
  function LineMessages(line: Option<string>, parse: string -> ParseOutcome): (r: seq<ItemMessage>)
    ensures |r| <= 1
    ensures r != [] ==> IsDataLine(line) && parse(line.value).ParsedEvent?
                        && MessageFor(parse(line.value).event).Some?
                        && r == [MessageFor(parse(line.value).event).value]
  {
    if !IsDataLine(line) then []
    else match parse(line.value)
      case ParsedEvent(e) => if MessageFor(e).Some? then [MessageFor(e).value] else []
      case _ => []
  }

  /** The messages a run of lines produces, in line order. */
  function Dispatched(lines: seq<Option<string>>, parse: string -> ParseOutcome): seq<ItemMessage> {
    if lines == [] then []
    else Dispatched(lines[..|lines| - 1], parse) + LineMessages(lines[|lines| - 1], parse)
  }

  /** Every message comes from its own data line: no more messages than
      lines handed to the parser. */
  lemma {:induction false} DispatchedAtMostDataLines(lines: seq<Option<string>>, parse: string -> ParseOutcome)
    ensures |Dispatched(lines, parse)| <= |DataLines(lines)|
    decreases |lines|
  {
    if lines != [] {
      DispatchedAtMostDataLines(lines[..|lines| - 1], parse);
    }
  }

  /** The lines that reach the parser, in order. */
  function DataLines(lines: seq<Option<string>>): (r: seq<string>)
    ensures |r| <= |lines|
    ensures forall i :: 0 <= i < |r| ==> StartsWithIgnoreCase(r[i], "data:")
  {
    if lines == [] then []
    else DataLines(lines[..|lines| - 1]) + (if IsDataLine(lines[|lines| - 1]) then [lines[|lines| - 1].value] else [])
  }

  /** Where the loop stops when it is at line k: the number of lines read
      and how it ended. */
  function Halt(lines: seq<Option<string>>, k: nat, cancelAt: Option<nat>, failAt: Option<nat>,
                parse: string -> ParseOutcome): (r: (nat, StreamEnd))
    requires k <= |lines|
    ensures k <= r.0 <= |lines|
    ensures r.1 == EndOfStream ==> r.0 == |lines|
    ensures r.1 == Cancelled ==> cancelAt.Some? && r.0 == (if cancelAt.value <= k then k else cancelAt.value)
    ensures cancelAt.Some? ==> r.0 <= if cancelAt.value <= k then k else cancelAt.value
    decreases |lines| - k
  {
    if k == |lines| then (k, EndOfStream)
    else if cancelAt.Some? && cancelAt.value <= k then (k, Cancelled)
    else if failAt == Some(k) then (k, Failed)
    else if IsDataLine(lines[k]) && parse(lines[k].value).ParseFailure? then (k + 1, Failed)
    else Halt(lines, k + 1, cancelAt, failAt, parse)
  }

  /** The loop of StartItemUpdates, from the first read on: the messages
      sent and the lines handed to the parser are those of the lines read,
      in order, and reading stops where Halt says. */
  method PumpEvents(lines: seq<Option<string>>, cancelAt: Option<nat>, failAt: Option<nat>, parse: string -> ParseOutcome)
    returns (sent: seq<ItemMessage>, parserInputs: seq<string>, consumed: nat, ended: StreamEnd)
    ensures (consumed, ended) == Halt(lines, 0, cancelAt, failAt, parse)
    ensures consumed <= |lines|
    ensures sent == Dispatched(lines[..consumed], parse)
    ensures parserInputs == DataLines(lines[..consumed])
  {
    var i := 0;
    sent, parserInputs := [], [];
    while i < |lines|
      invariant 0 <= i <= |lines|
      invariant Halt(lines, i, cancelAt, failAt, parse) == Halt(lines, 0, cancelAt, failAt, parse)
      invariant sent == Dispatched(lines[..i], parse)
      invariant parserInputs == DataLines(lines[..i])
    {
      if cancelAt.Some? && cancelAt.value <= i {
        return sent, parserInputs, i, Cancelled;
      }
      if failAt == Some(i) {
        return sent, parserInputs, i, Failed;
      }
      var line := lines[i];
      DispatchedStep(lines, i, parse);
      if line.Some? && StartsWithIgnoreCase(line.value, "data:") {
        parserInputs := parserInputs + [line.value];
        var outcome := parse(line.value);
        match outcome {
          case ParseFailure =>
            return sent, parserInputs, i + 1, Failed;
          case NullEvent =>
          case ParsedEvent(e) =>
            match e.eventType {
              case ItemStateEvent =>
                sent := sent + [UpdateItemMessage(e.itemName, e.value)];
              case ItemStateChangedEvent =>
                sent := sent + [ItemStateChangedMessage(e.itemName, e.value, e.oldValue)];
              case _ =>
            }
        }
      }
      i := i + 1;
    }
    assert lines[..i] == lines;
    return sent, parserInputs, i, EndOfStream;
  }

  /** The messages of two runs of lines are those of each, in order. */
  lemma {:induction false} DispatchedAppend(a: seq<Option<string>>, b: seq<Option<string>>, parse: string -> ParseOutcome)
    ensures Dispatched(a + b, parse) == Dispatched(a, parse) + Dispatched(b, parse)
    decreases |b|
  {
    if b == [] {
      assert a + b == a;
    } else {
      var b', last := b[..|b| - 1], b[|b| - 1];
      var msgs := LineMessages(last, parse);
      assert (a + b)[..|a + b| - 1] == a + b' && (a + b)[|a + b| - 1] == last;
      DispatchedAppend(a, b', parse);
      assert Dispatched(a + b, parse) == Dispatched(a + b', parse) + msgs;
      assert Dispatched(b, parse) == Dispatched(b', parse) + msgs;
      assert Dispatched(a, parse) + Dispatched(b', parse) + msgs == Dispatched(a, parse) + (Dispatched(b', parse) + msgs);
    }
  }

  /** Reading further only adds messages at the end: what was sent after n
      lines is a prefix of what is sent after m >= n lines. */
  lemma DispatchedPrefix(lines: seq<Option<string>>, n: nat, m: nat, parse: string -> ParseOutcome)
    requires n <= m <= |lines|
    ensures Dispatched(lines[..n], parse) <= Dispatched(lines[..m], parse)
  {
    assert lines[..m] == lines[..n] + lines[n..m];
    DispatchedAppend(lines[..n], lines[n..m], parse);
  }

  /** A line that is not a data line, or that the parser turns into null or
      into an event other than the two item events, changes nothing. */
  lemma SilentLineIgnored(a: seq<Option<string>>, x: Option<string>, b: seq<Option<string>>, parse: string -> ParseOutcome)
    requires !IsDataLine(x) || parse(x.value).NullEvent?
             || (parse(x.value).ParsedEvent? && MessageFor(parse(x.value).event).None?)
    ensures Dispatched(a + [x] + b, parse) == Dispatched(a + b, parse)
  {
    var ax := a + [x];
    assert a + [x] + b == ax + b;
    DispatchedAppend(ax, b, parse);
    DispatchedAppend(a, b, parse);
    assert ax[..|ax| - 1] == a && ax[|ax| - 1] == x;
    assert LineMessages(x, parse) == [];
    assert Dispatched(ax, parse) == Dispatched(a, parse);
  }

  /** Reading line i adds that line's messages and, for a data line, that
      line to the parser's inputs. */
  lemma DispatchedStep(lines: seq<Option<string>>, i: nat, parse: string -> ParseOutcome)
    requires i < |lines|
    ensures Dispatched(lines[..i + 1], parse) == Dispatched(lines[..i], parse) + LineMessages(lines[i], parse)
    ensures DataLines(lines[..i + 1]) == DataLines(lines[..i]) + (if IsDataLine(lines[i]) then [lines[i].value] else [])
  {
    assert lines[..i + 1][..i] == lines[..i] && lines[..i + 1][i] == lines[i];
  }

  /** With no cancellation, no read error and no parser failure, every line
      is read and every message of the stream is sent. */
  lemma {:induction false} UndisturbedRunReadsAll(lines: seq<Option<string>>, k: nat, parse: string -> ParseOutcome)
    requires k <= |lines|
    requires forall i :: 0 <= i < |lines| && IsDataLine(lines[i]) ==> !parse(lines[i].value).ParseFailure?
    ensures Halt(lines, k, None, None, parse) == (|lines|, EndOfStream)
    decreases |lines| - k
  {
    if k < |lines| {
      UndisturbedRunReadsAll(lines, k + 1, parse);
    }
  }

  /** Once the token is set no further line is read: a cancellation seen
      at iteration c leaves at most the first c lines read and their
      messages sent, and a later cancellation only sends more. */
  lemma {:induction false} LaterCancellationReadsMore(lines: seq<Option<string>>, k: nat, c1: nat, c2: nat,
                                                      failAt: Option<nat>, parse: string -> ParseOutcome)
    requires k <= |lines| && c1 <= c2
    ensures Halt(lines, k, Some(c1), failAt, parse).0 <= Halt(lines, k, Some(c2), failAt, parse).0
    decreases |lines| - k
  {
    if k < |lines| && c1 > k {
      LaterCancellationReadsMore(lines, k + 1, c1, c2, failAt, parse);
    }
  }
}
