/** The browser-side API client (frontend/src/api/client.ts): the reader of
    the analysis event stream and the download link builder. */
module ApiClient {
  import opened Common

  // ------------------------------------------------------------ URLs

  const DefaultBase := "http://localhost:8000"
  const DownloadPath := "/api/download/"

  /** `import.meta.env.VITE_API_URL ?? "http://localhost:8000"`: only a
      missing setting falls back; an empty one is kept. */
  function Base(viteApiUrl: Option<string>): (base: string)
    ensures viteApiUrl.Some? ==> base == viteApiUrl.value
    ensures viteApiUrl.None? ==> base == DefaultBase
  {
    match viteApiUrl
    case Some(url) => url
    case None => DefaultBase
  }

  /** `downloadUrl`: the backend's download route for `filename`; the file
      name is what follows the route prefix, so it can be read back. */
  function DownloadUrl(base: string, filename: string): (url: string)
    ensures StartsWith(url, base + DownloadPath)
    ensures url[|base + DownloadPath|..] == filename
  {
    base + DownloadPath + filename
  }

  /** Different files get different links. */
  lemma DownloadUrlInjective(base: string, f1: string, f2: string)
    ensures DownloadUrl(base, f1) == DownloadUrl(base, f2) <==> f1 == f2
  {
    if DownloadUrl(base, f1) == DownloadUrl(base, f2) {
      assert f1 == DownloadUrl(base, f1)[|base + DownloadPath|..];
    }
  }

  // ------------------------------------------------------------ events

  /** The string-valued members of a parsed JSON object. */
  type Record = map<string, string>

  /** What `JSON.parse` yields, as far as the client looks at it. */
  datatype Json = SyntaxError | Null | Primitive | Object(fields: Record)

  /** How `analyze` ends: it returns the result object, throws an Error with
      a message, or crashes on a runtime exception (a parse error, or a
      property read on `null`) whose message the model does not track. */
  datatype Outcome = Returned(result: Record) | Threw(message: string) | Crashed

  /** The response of `fetch`: its status, the parse of its body when not
      ok, and the decoded text of each chunk the body reader delivers. */
  datatype FetchResponse = FetchResponse(ok: bool, statusText: string, errorBody: Json, chunks: seq<string>)

  const DataPrefix := "data: "
  const NoResultMessage := "Stream ended without result"
  const UnknownError := "Unknown error"

  function Field(r: Record, name: string): Option<string> {
    if name in r then Some(r[name]) else None
  }

  /** `new Error(x).message`: an undefined argument gives "". */
  function ErrorText(detail: Option<string>): string {
    if detail.Some? then detail.value else ""
  }

  /** A non-ok response: the server's `detail`, or the status text when the
      body is not JSON, or "Unknown error" when the JSON has no `detail`. */
  function NotOkOutcome(body: Json, statusText: string): (o: Outcome)
    ensures !o.Returned?
    ensures body.SyntaxError? ==> o == Threw(statusText)
    ensures body.Null? ==> o == Crashed
    ensures body.Object? && "detail" in body.fields ==> o == Threw(body.fields["detail"])
    ensures body.Primitive? || (body.Object? && "detail" !in body.fields) ==> o == Threw(UnknownError)
  {
    match body
    case SyntaxError => Threw(statusText)
    case Null => Crashed
    case Primitive => Threw(UnknownError)
    case Object(fields) => Threw(if "detail" in fields then fields["detail"] else UnknownError)
  }

  /** What one complete line does to the reader. */
  datatype LineEvent = Skip | StageEvent(message: Option<string>) | Terminal(outcome: Outcome)

  /** One pass of the inner `for` loop: only "data: " lines are parsed;
      "stage" reports progress, "result" and "error" end the stream, and
      any other type is ignored. */
  function Classify(line: string, parse: string -> Json): (e: LineEvent)
    ensures !StartsWith(line, DataPrefix) ==> e == Skip
    ensures e.StageEvent? || e.Terminal? ==> StartsWith(line, DataPrefix)
    ensures e.Terminal? && e.outcome.Returned? ==>
      && parse(line[|DataPrefix|..]).Object?
      && Field(parse(line[|DataPrefix|..]).fields, "type") == Some("result")
      && e.outcome.result == parse(line[|DataPrefix|..]).fields - {"type"}
      && "type" !in e.outcome.result
    ensures e.Terminal? && e.outcome.Threw? ==>
      && parse(line[|DataPrefix|..]).Object?
      && Field(parse(line[|DataPrefix|..]).fields, "type") == Some("error")
      && e.outcome.message == ErrorText(Field(parse(line[|DataPrefix|..]).fields, "detail"))
    ensures StartsWith(line, DataPrefix) ==>
      var data := parse(line[|DataPrefix|..]);
      && (data.SyntaxError? || data.Null? ==> e == Terminal(Crashed))
      && (data.Primitive? ==> e == Skip)
      && (data.Object? && Field(data.fields, "type") == Some("stage") ==>
            e == StageEvent(Field(data.fields, "message")))
      && (data.Object? && Field(data.fields, "type") == Some("result") ==>
            e == Terminal(Returned(data.fields - {"type"})))
      && (data.Object? && Field(data.fields, "type") == Some("error") ==>
            e == Terminal(Threw(ErrorText(Field(data.fields, "detail")))))
      && (data.Object? && Field(data.fields, "type") !in {Some("stage"), Some("result"), Some("error")} ==>
            e == Skip)
  {
    if !StartsWith(line, DataPrefix) then Skip
    else match parse(line[|DataPrefix|..])
      case SyntaxError => Terminal(Crashed)
      case Null => Terminal(Crashed)
      case Primitive => Skip
      case Object(fields) =>
        var kind := Field(fields, "type");
        if kind == Some("stage") then StageEvent(Field(fields, "message"))
        else if kind == Some("result") then Terminal(Returned(fields - {"type"}))
        else if kind == Some("error") then Terminal(Threw(ErrorText(Field(fields, "detail"))))
        else Skip
  }

  /** The `onStage` calls made so far, and how the reader stopped, if it did. */
  datatype Progress = Progress(stages: seq<Option<string>>, stop: Option<Outcome>)

  /** Dispatching complete lines in order, stopping at the first terminal
      event: it stops exactly when some line is terminal, the stages it
      reports are the stage messages in order, and all of them when it runs
      through. */
  function Run(lines: seq<string>, parse: string -> Json): (p: Progress)
    ensures p.stop.None? <==> forall j :: 0 <= j < |lines| ==> !Classify(lines[j], parse).Terminal?
    ensures p.stages <= StageMessages(lines, parse)
    ensures p.stop.None? ==> p.stages == StageMessages(lines, parse)
  {
    if lines == [] then Progress([], None)
    else match Classify(lines[0], parse)
      case Skip => Run(lines[1..], parse)
      case StageEvent(m) => var p := Run(lines[1..], parse); Progress([m] + p.stages, p.stop)
      case Terminal(o) => Progress([], Some(o))
  }

  /** What the reader ends with on the whole text of a stream: the stage
      messages of its complete lines in order, possibly cut short by a
      terminal event; without one, all of them and "Stream ended without
      result". */
  function StreamOutcome(text: string, parse: string -> Json): (r: (seq<Option<string>>, Outcome))
    ensures r.0 <= StageMessages(CompleteLines(text), parse)
    ensures (forall j :: 0 <= j < |CompleteLines(text)| ==> !Classify(CompleteLines(text)[j], parse).Terminal?) ==>
      r == (StageMessages(CompleteLines(text), parse), Threw(NoResultMessage))
  {
    var p := Run(CompleteLines(text), parse);
    (p.stages, if p.stop.Some? then p.stop.value else Threw(NoResultMessage))
  }

  /** What `analyze` ends with for a response: a non-ok response reports no
      stage and never returns; an ok one reports the stream's stage messages
      in order, possibly cut short. */
  function Expected(res: FetchResponse, parse: string -> Json): (r: (seq<Option<string>>, Outcome))
    ensures !res.ok ==> r.0 == [] && !r.1.Returned?
    ensures res.ok ==> r.0 <= StageMessages(CompleteLines(Concat(res.chunks)), parse)
  {
    if !res.ok then ([], NotOkOutcome(res.errorBody, res.statusText))
    else StreamOutcome(Concat(res.chunks), parse)
  }

  // ------------------------------------------------------------ reference view

  /** The messages of all "stage" lines, in order. */
  function StageMessages(lines: seq<string>, parse: string -> Json): seq<Option<string>> {
    if lines == [] then []
    else
      var e := Classify(lines[0], parse);
      (if e.StageEvent? then [e.message] else []) + StageMessages(lines[1..], parse)
  }

  lemma {:induction false} StageMessagesAppend(a: seq<string>, b: seq<string>, parse: string -> Json)
    ensures StageMessages(a + b, parse) == StageMessages(a, parse) + StageMessages(b, parse)
    decreases |a|
  {
    if a == [] {
      assert a + b == b;
    } else {
      assert (a + b)[0] == a[0];
      assert (a + b)[1..] == a[1..] + b;
      StageMessagesAppend(a[1..], b, parse);
      var e := Classify(a[0], parse);
      AppendAssoc(if e.StageEvent? then [e.message] else [], StageMessages(a[1..], parse), StageMessages(b, parse));
    }
  }

  /** Running two batches of lines is running the first and, unless it
      stopped, continuing with the second. */
  lemma {:induction false} RunAppend(a: seq<string>, b: seq<string>, parse: string -> Json)
    ensures Run(a + b, parse) ==
      if Run(a, parse).stop.Some? then Run(a, parse)
      else Progress(Run(a, parse).stages + Run(b, parse).stages, Run(b, parse).stop)
    decreases |a|
  {
    if a == [] {
      assert a + b == b;
    } else {
      assert (a + b)[0] == a[0];
      assert (a + b)[1..] == a[1..] + b;
      var e := Classify(a[0], parse);
      if !e.Terminal? {
        RunAppend(a[1..], b, parse);
        if e.StageEvent? {
          var ra, rb := Run(a[1..], parse), Run(b, parse);
          if ra.stop.None? {
            AppendAssoc([e.message], ra.stages, rb.stages);
          }
        }
      }
    }
  }

  /** The first terminal event decides the outcome: the stage messages before
      it have been reported in order and no later line is looked at. */
  lemma {:induction false} RunStopsAtFirstTerminal(lines: seq<string>, i: nat, parse: string -> Json)
    requires i < |lines| && Classify(lines[i], parse).Terminal?
    requires forall j :: 0 <= j < i ==> !Classify(lines[j], parse).Terminal?
    ensures Run(lines, parse) ==
      Progress(StageMessages(lines[..i], parse), Some(Classify(lines[i], parse).outcome))
  {
    assert lines == lines[..i] + lines[i..];
    assert forall j :: 0 <= j < i ==> lines[..i][j] == lines[j];
    RunAppend(lines[..i], lines[i..], parse);
  }

  /** Text after the last newline is never parsed: a final unterminated
      "data: " line cannot deliver a result. */
  lemma TailNeverParsed(lines: seq<string>, tail: string, parse: string -> Json)
    requires AllNewlineFree(lines) && NewlineFree(tail)
    ensures StreamOutcome(JoinLines(lines) + tail, parse) == StreamOutcome(JoinLines(lines), parse)
  {
    CompleteLinesAfter(lines, tail);
    CompleteLinesAfter(lines, "");
    SplitJoinLines([], tail);
    SplitJoinLines([], "");
    assert JoinLines(lines) + "" == JoinLines(lines);
    assert CompleteLines(tail) == [] == CompleteLines("");
  }

  /** Once the lines read so far have stopped the reader, nothing that
      follows them in the stream changes the outcome. */
  lemma StopIsFinal(seen: seq<string>, rest: string, parse: string -> Json)
    requires AllNewlineFree(seen)
    requires Run(seen, parse).stop.Some?
    ensures StreamOutcome(JoinLines(seen) + rest, parse) == (Run(seen, parse).stages, Run(seen, parse).stop.value)
  {
    CompleteLinesAfter(seen, rest);
    RunAppend(seen, CompleteLines(rest), parse);
  }

  /** The text of the stream, split where the reader stopped: the lines it
      has dispatched, then everything after them. */
  lemma StreamAfterStop(chunks: seq<string>, k: nat, seen: seq<string>, unseen: seq<string>, buffer: string)
    requires k < |chunks|
    requires JoinLines(seen + unseen) + buffer == Concat(chunks[..k + 1])
    ensures Concat(chunks) == JoinLines(seen) + (JoinLines(unseen) + buffer + Concat(chunks[k + 1..]))
  {
    var a, b, c, d := JoinLines(seen), JoinLines(unseen), buffer, Concat(chunks[k + 1..]);
    assert chunks == chunks[..k + 1] + chunks[k + 1..];
    ConcatAppend(chunks[..k + 1], chunks[k + 1..]);
    JoinLinesAppend(seen, unseen);
    assert Concat(chunks) == a + b + c + d;
    assert a + b + c + d == a + (b + c + d);
  }

  /** One more line for a reader that has not stopped. */
  lemma RunSnoc(prefix: seq<string>, line: string, parse: string -> Json)
    requires Run(prefix, parse).stop.None?
    ensures Classify(line, parse).Skip? ==> Run(prefix + [line], parse) == Run(prefix, parse)
    ensures Classify(line, parse).StageEvent? ==>
      Run(prefix + [line], parse) == Progress(Run(prefix, parse).stages + [Classify(line, parse).message], None)
    ensures Classify(line, parse).Terminal? ==>
      Run(prefix + [line], parse) == Progress(Run(prefix, parse).stages, Some(Classify(line, parse).outcome))
  {
    RunAppend(prefix, [line], parse);
    assert [line][1..] == [];
  }

  /** One more chunk: its complete lines extend those read so far, and its
      remainder is the new buffer. */
  lemma ChunkStep(chunks: seq<string>, k: nat, done: seq<string>, buffer: string)
    requires k < |chunks|
    requires JoinLines(done) + buffer == Concat(chunks[..k])
    ensures var lines, rest := CompleteLines(buffer + chunks[k]), Remainder(buffer + chunks[k]);
      JoinLines(done + lines) + rest == Concat(chunks[..k + 1])
  {
    var lines, rest := CompleteLines(buffer + chunks[k]), Remainder(buffer + chunks[k]);
    JoinSplit(buffer + chunks[k]);
    JoinLinesAppend(done, lines);
    ConcatPrefix(chunks, k);
    AppendAssoc(JoinLines(done), JoinLines(lines), rest);
    AppendAssoc(JoinLines(done), buffer, chunks[k]);
  }

  /** The stream ran out: the lines read are all the complete lines there
      were, and the buffered tail is dropped. */
  lemma StreamEnds(done: seq<string>, buffer: string, parse: string -> Json)
    requires AllNewlineFree(done) && NewlineFree(buffer)
    requires Run(done, parse).stop.None?
    ensures StreamOutcome(JoinLines(done) + buffer, parse) == (Run(done, parse).stages, Threw(NoResultMessage))
  {
    CompleteLinesAfter(done, buffer);
    SplitJoinLines([], buffer);
    assert done + CompleteLines(buffer) == done;
  }

  lemma StopHere(chunks: seq<string>, k: nat, seen: seq<string>, unseen: seq<string>,
                 buffer: string, parse: string -> Json)
    requires k < |chunks|
    requires AllNewlineFree(seen)
    requires JoinLines(seen + unseen) + buffer == Concat(chunks[..k + 1])
    requires Run(seen, parse).stop.Some?
    ensures StreamOutcome(Concat(chunks), parse) == (Run(seen, parse).stages, Run(seen, parse).stop.value)
  {
    StreamAfterStop(chunks, k, seen, unseen, buffer);
    StopIsFinal(seen, JoinLines(unseen) + buffer + Concat(chunks[k + 1..]), parse);
  }

  /** The inner `for` loop over one batch of complete lines, after the
      lines `before` have left the reader running with `stagesBefore`
      reported: it reports stage messages in order and stops at the first
      terminal event (line `used`), or runs through the batch. */
  method DispatchLines(lines: seq<string>, parse: string -> Json, ghost before: seq<string>,
                       stagesBefore: seq<Option<string>>)
    returns (stages: seq<Option<string>>, stop: Option<Outcome>, ghost used: nat)
    requires Run(before, parse) == Progress(stagesBefore, None)
    ensures stop.None? ==> Run(before + lines, parse) == Progress(stages, None)
    ensures stop.Some? ==> used < |lines| && Run(before + lines[..used + 1], parse) == Progress(stages, stop)
  {
    stages, stop, used := stagesBefore, None, 0;
    var j := 0;
    assert before + lines[..0] == before;
    while j < |lines|
      invariant 0 <= j <= |lines|
      invariant Run(before + lines[..j], parse) == Progress(stages, None)
    {
      var line := lines[j];
      PrefixStep(before, lines, j);
      RunSnoc(before + lines[..j], line, parse);
      match Classify(line, parse) {
        case Skip =>
        case StageEvent(message) =>
          stages := stages + [message];
        case Terminal(o) =>
          return stages, Some(o), j;
      }
      j := j + 1;
    }
    assert lines[..j] == lines;
  }

  /** The reader appends each chunk to `buffer`, dispatches the complete
      lines and keeps the unterminated tail. Whatever the chunk boundaries,
      it ends exactly as the line-by-line reading of the whole stream. */
  method Analyze(res: FetchResponse, parse: string -> Json) returns (outcome: Outcome, stages: seq<Option<string>>)
    ensures (stages, outcome) == Expected(res, parse)
  {
    stages := [];
    if !res.ok {
      outcome := NotOkOutcome(res.errorBody, res.statusText);
      return;
    }
    var buffer := "";
    ghost var done: seq<string> := [];
    var k := 0;
    while k < |res.chunks|
      invariant 0 <= k <= |res.chunks|
      invariant AllNewlineFree(done) && NewlineFree(buffer)
      invariant JoinLines(done) + buffer == Concat(res.chunks[..k])
      invariant Run(done, parse) == Progress(stages, None)
    {
      ghost var received := buffer + res.chunks[k];
      ChunkStep(res.chunks, k, done, buffer);
      buffer := buffer + res.chunks[k];
      var lines := Split(buffer);
      buffer := lines[|lines| - 1];
      lines := lines[..|lines| - 1];
      assert lines == CompleteLines(received) && buffer == Remainder(received);
      var stop;
      ghost var used;
      stages, stop, used := DispatchLines(lines, parse, done, stages);
      if stop.Some? {
        outcome := stop.value;
        PrefixStep(done, lines, used);
        StopHere(res.chunks, k, done + lines[..used + 1], lines[used + 1..], buffer, parse);
        return;
      }
      done := done + lines;
      k := k + 1;
    }
    outcome := Threw(NoResultMessage);
    assert res.chunks[..k] == res.chunks;
    StreamEnds(done, buffer, parse);
  }
}
