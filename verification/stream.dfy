/** The streaming analysis endpoint: the events it sends while the model's
    reply arrives as text deltas, and the server-sent-events framing of each
    event. The deltas, the way the stream ends and `JSON.parse` are inputs. */
module Stream {
  import opened Base
  import opened JsText
  import opened Extract
  import opened Nested

  /** The payloads the endpoint sends: `{type: 'progress', chunks}`,
      `{type: 'complete', data}` and `{type: 'error', error}`. */
  datatype Event = Progress(chunks: nat) | Complete(data: Value) | Error(error: string)

  predicate Terminal(e: Event) {
    !e.Progress?
  }

  /** A progress event is sent after every this many deltas. */
  const Cadence := 15

  /** How the model's stream ends: it completes, or `finalMessage` rejects
      with a failure. */
  datatype StreamEnd = Finished | Failed(failure: Failure)

  /** `JSON.parse`: the parsed value, or the message of the SyntaxError. */
  type Parser = string -> Result<Value>

  /** The progress events the `text` handler has sent after `n` deltas. */
  function ProgressUpTo(n: nat): seq<Event>
    decreases n
  {
    if n == 0 then []
    else ProgressUpTo(n - 1) + (if n % Cadence == 0 then [Progress(n)] else [])
  }

  /** After `n` deltas exactly `n / 15` progress events were sent, the j-th
      carrying `15 * (j + 1)`: one per multiple of 15, in increasing order. */
  lemma {:induction false} ProgressUpToClosed(n: nat)
    ensures |ProgressUpTo(n)| == n / Cadence
    ensures forall j :: 0 <= j < |ProgressUpTo(n)| ==> ProgressUpTo(n)[j] == Progress(Cadence * (j + 1))
    decreases n
  {
    if n > 0 {
      ProgressUpToClosed(n - 1);
      if n % Cadence == 0 {
        assert n / Cadence == (n - 1) / Cadence + 1;
        assert n == Cadence * ((n - 1) / Cadence + 1);
      } else {
        assert n / Cadence == (n - 1) / Cadence;
      }
    }
  }

  /** The event that ends a session that received `text`. */
  function Outcome(text: string, end: StreamEnd, parse: Parser): (r: seq<Event>)
    ensures |r| == 1 && Terminal(r[0])
    ensures r[0].Complete? <==> end.Finished? && parse(ExtractJson(text)).Ok?
    ensures end.Failed? ==> r[0] == Error(ErrorMessage(end.failure))
    ensures end.Finished? && parse(ExtractJson(text)).Err? ==> r[0] == Error(InvalidJsonMessage)
  {
    match end
    case Failed(f) => [Error(ErrorMessage(f))]
    case Finished =>
      match parse(ExtractJson(text))
      case Ok(v) => [Complete(v)]
      case Err(m) => [Error(ErrorMessage(SyntaxError(m)))]
  }

  /** All events of a session over `deltas`: the progress events sent while
      the text arrived, then, when the stream finished, one more progress
      event with the final count, then the outcome. */
  function Session(deltas: seq<string>, end: StreamEnd, parse: Parser): seq<Event>
  {
    var n := |deltas|;
    ProgressUpTo(n)
    + (if end.Finished? then [Progress(n)] else [])
    + Outcome(Concat(deltas), end, parse)
  }

  /** The handler as written: it accumulates the text and the chunk count
      delta by delta, sending a progress event on every 15th, then ends the
      session. It returns the events sent, the accumulated text and the
      count. */
  method RunSession(deltas: seq<string>, end: StreamEnd, parse: Parser) returns (events: seq<Event>, fullText: string, chunkCount: nat)
    ensures fullText == Concat(deltas) && chunkCount == |deltas|
    ensures events == Session(deltas, end, parse)
  {
    events := [];
    fullText := "";
    chunkCount := 0;
    var i := 0;
    while i < |deltas|
      invariant 0 <= i <= |deltas|
      invariant fullText == Concat(deltas[..i]) && chunkCount == i
      invariant events == ProgressUpTo(i)
    {
      assert deltas[..i + 1][..i] == deltas[..i];
      fullText := fullText + deltas[i];
      chunkCount := chunkCount + 1;
      if chunkCount % Cadence == 0 {
        events := events + [Progress(chunkCount)];
      }
      i := i + 1;
    }
    assert deltas[..i] == deltas;
    if end.Failed? {
      events := events + [Error(ErrorMessage(end.failure))];
    } else {
      events := events + [Progress(chunkCount)];
      var parsed := parse(ExtractJson(fullText));
      if parsed.Ok? {
        events := events + [Complete(parsed.value)];
      } else {
        events := events + [Error(ErrorMessage(SyntaxError(parsed.error)))];
      }
    }
  }

  /** The shape of every session: `n / 15` mid-stream progress events in
      increasing order, then the final progress event with the count `n`
      only when the stream finished, then exactly one terminal event, last. */
  lemma SessionShape(deltas: seq<string>, end: StreamEnd, parse: Parser)
    ensures var ev := Session(deltas, end, parse);
            var n := |deltas|;
            && |ev| == n / Cadence + (if end.Finished? then 2 else 1)
            && (forall j :: 0 <= j < n / Cadence ==> ev[j] == Progress(Cadence * (j + 1)))
            && (end.Finished? ==> ev[|ev| - 2] == Progress(n))
            && (forall i :: 0 <= i < |ev| - 1 ==> !Terminal(ev[i]))
            && Terminal(ev[|ev| - 1])
  {
    EventsShape(|deltas|, end.Finished?, Outcome(Concat(deltas), end, parse));
  }

  /** The shape of a session, whatever its terminal event. */
  lemma EventsShape(n: nat, finished: bool, out: seq<Event>)
    requires |out| == 1 && Terminal(out[0])
    ensures var ev := ProgressUpTo(n) + (if finished then [Progress(n)] else []) + out;
            && |ev| == n / Cadence + (if finished then 2 else 1)
            && (forall j :: 0 <= j < n / Cadence ==> ev[j] == Progress(Cadence * (j + 1)))
            && (finished ==> ev[|ev| - 2] == Progress(n))
            && (forall i :: 0 <= i < |ev| - 1 ==> !Terminal(ev[i]))
            && Terminal(ev[|ev| - 1])
  {
    var mid := ProgressUpTo(n);
    var last := if finished then [Progress(n)] else [];
    ProgressUpToClosed(n);
    OnlyLastTerminal(mid, last, out);
    PrefixOfConcat(mid, last + out);
    assert mid + last + out == mid + (last + out);
  }

  /** Progress events, then one terminal event: only the last is terminal. */
  lemma OnlyLastTerminal(mid: seq<Event>, last: seq<Event>, out: seq<Event>)
    requires forall j :: 0 <= j < |mid| ==> mid[j].Progress?
    requires forall j :: 0 <= j < |last| ==> last[j].Progress?
    requires |out| == 1 && Terminal(out[0])
    ensures var ev := mid + last + out;
            (forall i :: 0 <= i < |ev| - 1 ==> !Terminal(ev[i])) && Terminal(ev[|ev| - 1])
  {
    var ev := mid + last + out;
    forall i | 0 <= i < |ev| - 1 ensures !Terminal(ev[i]) {
      if i < |mid| {
        assert ev[i] == mid[i];
      } else {
        assert ev[i] == last[i - |mid|];
      }
    }
    assert ev[|ev| - 1] == out[0];
  }

  lemma PrefixOfConcat(a: seq<Event>, b: seq<Event>)
    ensures forall j :: 0 <= j < |a| ==> (a + b)[j] == a[j]
  {
  }

  /** A session completes, with the parsed proposal, exactly when the stream
      finished and the extracted text parses; text that does not parse is
      reported with the fixed invalid-JSON message; a stream failure is
      reported with its message and no final progress event. */
  lemma SessionOutcome(deltas: seq<string>, end: StreamEnd, parse: Parser, v: Value)
    ensures var ev := Session(deltas, end, parse);
            ev[|ev| - 1] == Complete(v) <==> end.Finished? && parse(ExtractJson(Concat(deltas))) == Ok(v)
    ensures var ev := Session(deltas, end, parse);
            end.Failed? ==> ev[|ev| - 1] == Error(ErrorMessage(end.failure)) && |ev| == |deltas| / Cadence + 1
    ensures var ev := Session(deltas, end, parse);
            end.Finished? && parse(ExtractJson(Concat(deltas))).Err? ==> ev[|ev| - 1] == Error(InvalidJsonMessage)
  {
    ProgressUpToClosed(|deltas|);
  }

  /** When 15 divides a non-zero count, the final progress event repeats the
      last mid-stream one. */
  lemma FinalProgressRepeats(deltas: seq<string>, parse: Parser)
    requires |deltas| > 0 && |deltas| % Cadence == 0
    ensures var ev := Session(deltas, Finished, parse);
            ev[|ev| - 3] == ev[|ev| - 2] == Progress(|deltas|)
  {
    var n := |deltas|;
    ProgressUpToClosed(n);
    assert Cadence * (n / Cadence - 1 + 1) == n;
  }

  /** A worked example of the cadence, covered in general by
      `ProgressUpToClosed` and `SessionShape`: forty-seven deltas that parse
      give progress 15, 30, 45, the final 47, then the proposal. */
  lemma FortySevenDeltas(deltas: seq<string>, parse: Parser, v: Value)
    requires |deltas| == 47 && parse(ExtractJson(Concat(deltas))) == Ok(v)
    ensures Session(deltas, Finished, parse) == [Progress(15), Progress(30), Progress(45), Progress(47), Complete(v)]
  {
    SessionCompletes(deltas, parse, v);
    ThreeProgressEvents(|deltas|);
    var head := [Progress(15), Progress(30), Progress(45)];
    assert head + [Progress(47)] + [Complete(v)] == [Progress(15), Progress(30), Progress(45), Progress(47), Complete(v)];
  }

  /** A finished stream whose text parses ends with the final progress event
      and the proposal. */
  lemma SessionCompletes(deltas: seq<string>, parse: Parser, v: Value)
    requires parse(ExtractJson(Concat(deltas))) == Ok(v)
    ensures Session(deltas, Finished, parse) == ProgressUpTo(|deltas|) + [Progress(|deltas|)] + [Complete(v)]
  {
    assert Outcome(Concat(deltas), Finished, parse) == [Complete(v)];
  }

  /** Between 45 and 59 deltas, the progress events 15, 30 and 45 were sent. */
  lemma ThreeProgressEvents(n: nat)
    requires 45 <= n < 60
    ensures ProgressUpTo(n) == [Progress(15), Progress(30), Progress(45)]
  {
    ProgressUpToClosed(n);
  }

  // ---------------------------------------------------------------- framing

  /** `data: <payload>` followed by the blank line that ends an event. */
  function Frame(payload: string): string {
    "data: " + payload + "\n\n"
  }

  /** The bytes written for a sequence of payloads. */
  function Wire(payloads: seq<string>): string
    decreases |payloads|
  {
    if |payloads| == 0 then "" else Frame(payloads[0]) + Wire(payloads[1..])
  }

  /** The `data:` lines of the payloads. */
  function DataLines(payloads: seq<string>): (r: seq<string>)
    ensures |r| == |payloads|
    decreases |payloads|
  {
    if |payloads| == 0 then [] else ["data: " + payloads[0]] + DataLines(payloads[1..])
  }

  /** A reader of the stream: split at blank lines, drop the empty rest after
      the last event, and strip `data: ` from each event. */
  function Deframe(wire: string): seq<string>
  {
    var parts := Split(wire, "\n\n");
    StripData(parts[..|parts| - 1])
  }

  function StripData(lines: seq<string>): (r: seq<string>)
    ensures |r| == |lines|
    decreases |lines|
  {
    if |lines| == 0 then []
    else
      var l := lines[0];
      [if |l| >= 6 && l[..6] == "data: " then l[6..] else l] + StripData(lines[1..])
  }

  predicate OneLine(s: string) {
    forall i :: 0 <= i < |s| ==> s[i] != '\n'
  }

  /** The stream is the data lines joined by blank lines, with one after the
      last. */
  lemma {:induction false} WireIsJoin(payloads: seq<string>)
    ensures Wire(payloads) == Join(DataLines(payloads) + [""], "\n\n")
    decreases |payloads|
  {
    if |payloads| > 0 {
      var rest := payloads[1..];
      WireIsJoin(rest);
      var lines := DataLines(payloads) + [""];
      assert lines == ["data: " + payloads[0]] + (DataLines(rest) + [""]);
      assert lines[1..] == DataLines(rest) + [""];
    }
  }

  /** Stripping `data: ` from the data lines gives back the payloads. */
  lemma {:induction false} StripDataLines(payloads: seq<string>)
    ensures StripData(DataLines(payloads)) == payloads
    decreases |payloads|
  {
    if |payloads| > 0 {
      StripDataLines(payloads[1..]);
      var l := "data: " + payloads[0];
      assert l[..6] == "data: " && l[6..] == payloads[0];
    }
  }

  /** Payloads without line breaks (as `JSON.stringify` writes them) are read
      back from the stream one event each, in order. */
  lemma DeframeWire(payloads: seq<string>)
    requires forall k :: 0 <= k < |payloads| ==> OneLine(payloads[k])
    ensures Deframe(Wire(payloads)) == payloads
  {
    var lines := DataLines(payloads) + [""];
    WireIsJoin(payloads);
    LinesWithoutBreak(payloads);
    SplitJoin(lines, "\n\n");
    assert lines[..|lines| - 1] == DataLines(payloads);
    StripDataLines(payloads);
  }

  /** No data line, nor the empty rest, holds the blank line's first character. */
  lemma LinesWithoutBreak(payloads: seq<string>)
    requires forall k :: 0 <= k < |payloads| ==> OneLine(payloads[k])
    ensures var lines := DataLines(payloads) + [""];
            forall k :: 0 <= k < |lines| ==> "\n\n"[0] !in lines[k]
  {
    var lines := DataLines(payloads) + [""];
    DataLinesOneLine(payloads);
    assert "\n\n"[0] == '\n';
    forall k | 0 <= k < |lines| ensures '\n' !in lines[k] {
      if k < |payloads| {
        assert lines[k] == DataLines(payloads)[k];
        assert OneLine(lines[k]);
      } else {
        assert lines[k] == "";
      }
    }
  }

  lemma {:induction false} DataLinesOneLine(payloads: seq<string>)
    requires forall k :: 0 <= k < |payloads| ==> OneLine(payloads[k])
    ensures forall k :: 0 <= k < |payloads| ==> OneLine(DataLines(payloads)[k])
    decreases |payloads|
  {
    if |payloads| > 0 {
      DataLinesOneLine(payloads[1..]);
      var l := "data: " + payloads[0];
      assert OneLine(payloads[0]);
      forall i | 0 <= i < |l| ensures l[i] != '\n' {
        if i >= 6 { assert l[i] == payloads[0][i - 6]; }
      }
      forall k | 1 <= k < |payloads| ensures OneLine(DataLines(payloads)[k]) {
        assert DataLines(payloads)[k] == DataLines(payloads[1..])[k - 1];
        assert OneLine(payloads[1..][k - 1]);
      }
    }
  }
}
