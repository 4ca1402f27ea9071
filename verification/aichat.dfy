/**
  The `sendMessage` action of the `useAIChat` hook (src/hooks/aichat.ts),
  with its three React state cells (messages, status, error) gathered into
  one immutable record. The response arrives as already-decoded text chunks;
  the hook's incremental line decoder folds each chunk into a buffer and the
  complete lines into the last (assistant) message.
 */
module AiChat {
  import opened Options
  import opened Text
  import opened Sse

  datatype Role = User | Assistant

  /** A chat message; the source always builds exactly one text part and
      reads `parts[0]`, so the part list is modelled by its one text. */
  datatype Message = Message(role: Role, id: string, text: string)

  datatype Status = Idle | Streaming | Error

  /** Why a request ended in the error state. */
  datatype Failure =
    | HttpError(status: int)   // the response was not ok
    | NoResponseBody           // the response had no body to read
    | NetworkError             // fetch or a chunk read rejected

  datatype ChatState = ChatState(messages: seq<Message>, status: Status, error: Option<Failure>)

  /** The hook's initial state. */
  const InitialState := ChatState([], Idle, None)

  /** The assistant entry added once the response is readable. */
  function Placeholder(assistantId: string): (m: Message)
    ensures m.role == Assistant && m.id == assistantId && m.text == ""
  {
    Message(Assistant, assistantId, "")
  }

  /** The `setMessages` updater of a text delta: the last message is replaced
      by an assistant message carrying `assistantId` and its old text
      followed by the delta. */
  function AppendDelta(msgs: seq<Message>, assistantId: string, delta: string): (r: seq<Message>)
    requires |msgs| > 0
    ensures |r| == |msgs|
    ensures r[..|r| - 1] == msgs[..|msgs| - 1]
    ensures r[|r| - 1] == Message(Assistant, assistantId, msgs[|msgs| - 1].text + delta)
  {
    msgs[..|msgs| - 1] + [Message(Assistant, assistantId, msgs[|msgs| - 1].text + delta)]
  }

  /** One complete line: only a text delta touches the messages. */
  function ProcessLine(msgs: seq<Message>, assistantId: string, classify: Classifier, line: string): (r: seq<Message>)
    requires |msgs| > 0
    ensures |r| == |msgs|
    ensures r[..|r| - 1] == msgs[..|msgs| - 1]
    ensures r[|r| - 1].text == msgs[|msgs| - 1].text + FrameDelta(classify(line))
    ensures !classify(line).TextDelta? ==> r == msgs
    ensures classify(line).TextDelta? ==> r[|r| - 1].role == Assistant && r[|r| - 1].id == assistantId
  {
    match classify(line)
    case TextDelta(delta) => AppendDelta(msgs, assistantId, delta)
    case _ => msgs
  }

  /** The `for (const line of lines)` loop, as a left fold. */
  function ProcessLines(msgs: seq<Message>, assistantId: string, classify: Classifier, lines: seq<string>): (r: seq<Message>)
    requires |msgs| > 0
    ensures |r| == |msgs|
    decreases |lines|
  {
    if |lines| == 0 then msgs
    else ProcessLine(ProcessLines(msgs, assistantId, classify, lines[..|lines| - 1]), assistantId, classify, lines[|lines| - 1])
  }

  lemma {:induction false} ProcessLinesAppend(msgs: seq<Message>, assistantId: string, classify: Classifier, a: seq<string>, b: seq<string>)
    requires |msgs| > 0
    ensures ProcessLines(msgs, assistantId, classify, a + b)
         == ProcessLines(ProcessLines(msgs, assistantId, classify, a), assistantId, classify, b)
    decreases |b|
  {
    if |b| == 0 {
      assert a + b == a;
    } else {
      assert (a + b)[..|a + b| - 1] == a + b[..|b| - 1];
      ProcessLinesAppend(msgs, assistantId, classify, a, b[..|b| - 1]);
    }
  }

  /** The effect of a run of complete lines: the count and every message but
      the last stay as they were, and the last gains the in-order
      concatenation of the lines' deltas. With no text-delta line nothing
      changes at all; otherwise the last message becomes the assistant message
      `assistantId`. */
  lemma {:induction false} ProcessLinesEffect(msgs: seq<Message>, assistantId: string, classify: Classifier, lines: seq<string>)
    requires |msgs| > 0
    ensures var r := ProcessLines(msgs, assistantId, classify, lines);
      && |r| == |msgs|
      && r[..|r| - 1] == msgs[..|msgs| - 1]
      && r[|r| - 1].text == msgs[|msgs| - 1].text + Deltas(lines, classify)
      && ((forall i | 0 <= i < |lines| :: !classify(lines[i]).TextDelta?) ==> r == msgs)
      && (r == msgs || (r[|r| - 1].role == Assistant && r[|r| - 1].id == assistantId))
    decreases |lines|
  {
    if |lines| > 0 {
      var init := lines[..|lines| - 1];
      var line := lines[|lines| - 1];
      ProcessLinesEffect(msgs, assistantId, classify, init);
      var before := ProcessLines(msgs, assistantId, classify, init);
      assert ProcessLines(msgs, assistantId, classify, lines) == ProcessLine(before, assistantId, classify, line);
      assert Deltas(lines, classify) == Deltas(init, classify) + FrameDelta(classify(line));
      if forall i | 0 <= i < |lines| :: !classify(lines[i]).TextDelta? {
        assert forall i | 0 <= i < |init| :: init[i] == lines[i];
      }
    }
  }

  /** A line that carries no delta — not a data line, the `[DONE]` sentinel,
      a payload that does not classify, or any record other than a non-empty
      `text-delta`, `finish` included — changes nothing, and the lines after
      it are processed as if it had not been there. */
  lemma SkippedLine(msgs: seq<Message>, assistantId: string, classify: Classifier, before: seq<string>, line: string, after: seq<string>)
    requires |msgs| > 0
    requires !classify(line).TextDelta?
    ensures ProcessLines(msgs, assistantId, classify, before + [line] + after)
         == ProcessLines(msgs, assistantId, classify, before + after)
  {
    ProcessLinesAppend(msgs, assistantId, classify, before + [line], after);
    ProcessLinesAppend(msgs, assistantId, classify, before, [line]);
    ProcessLinesAppend(msgs, assistantId, classify, before, after);
    assert [line][..0] == [];
  }

  /** The same for the hook's own classifier, by the kind of line: a line
      without the `data: ` prefix, the `[DONE]` sentinel, a payload
      `JSON.parse` rejects, a record whose `type` is not `text-delta`
      (`finish` among them), or a `text-delta` with an empty delta. */
  lemma SkippedFrame(msgs: seq<Message>, assistantId: string, parse: Parser,
                     before: seq<string>, line: string, after: seq<string>)
    requires |msgs| > 0
    requires || !StartsWith(line, DataPrefix)
             || Payload(line) == DoneMarker
             || parse(Payload(line)).None?
             || parse(Payload(line)).value.kind != Some(TextDeltaType)
             || parse(Payload(line)).value.delta == ""
    ensures ProcessLines(msgs, assistantId, LineClassifier(parse), before + [line] + after)
         == ProcessLines(msgs, assistantId, LineClassifier(parse), before + after)
  {
    assert !LineClassifier(parse)(line).TextDelta?;
    SkippedLine(msgs, assistantId, LineClassifier(parse), before, line, after);
  }

  /** `buffer += chunk; lines = buffer.split('\n'); buffer = lines.pop() || ''`:
      the lines the chunk completes and the new buffer. Every piece is free of
      newlines, and the completed lines, each closed by its newline, followed
      by the new buffer, are exactly the old buffer followed by the chunk. */
  function Receive(buffer: string, chunk: string): (r: (seq<string>, string))
    ensures AllNoNewline(r.0) && NoNewline(r.1)
    ensures Flatten(r.0) + r.1 == buffer + chunk
  {
    var text := buffer + chunk;
    FramingOf(text);
    (CompleteLines(text), Pending(text))
  }

  /** The decoder's state between reads: the pending partial line, and the
      messages as the updaters issued so far leave them. */
  datatype Decoder = Decoder(buffer: string, messages: seq<Message>)

  /** One pass of the read loop. */
  function Step(d: Decoder, assistantId: string, classify: Classifier, chunk: string): (r: Decoder)
    requires |d.messages| > 0
    ensures NoNewline(r.buffer)
    ensures |r.messages| == |d.messages|
  {
    var (lines, buffer) := Receive(d.buffer, chunk);
    Decoder(buffer, ProcessLines(d.messages, assistantId, classify, lines))
  }

  /** The read loop over all chunks delivered before the stream closed. */
  function Run(d: Decoder, assistantId: string, classify: Classifier, chunks: seq<string>): (r: Decoder)
    requires |d.messages| > 0
    ensures |r.messages| == |d.messages|
    ensures |chunks| > 0 ==> NoNewline(r.buffer)
    decreases |chunks|
  {
    if |chunks| == 0 then d
    else Step(Run(d, assistantId, classify, chunks[..|chunks| - 1]), assistantId, classify, chunks[|chunks| - 1])
  }

  /** A newline-free buffer is all pending text: no line is complete yet. */
  lemma NewlineFreeIsPending(b: string)
    requires NoNewline(b)
    ensures CompleteLines(b) == [] && Pending(b) == b
  {
    assert Flatten([]) + b == b;
    FramingUnique([], b, b);
  }

  /** A step from the state that text `x` leads to reaches the state that
      `x + chunk` leads to. */
  lemma StepClosedForm(m: seq<Message>, assistantId: string, classify: Classifier, x: string, chunk: string)
    requires |m| > 0
    ensures Step(Decoder(Pending(x), ProcessLines(m, assistantId, classify, CompleteLines(x))), assistantId, classify, chunk)
         == Decoder(Pending(x + chunk), ProcessLines(m, assistantId, classify, CompleteLines(x + chunk)))
  {
    CompleteLinesAppend(x, chunk);
    ProcessLinesAppend(m, assistantId, classify, CompleteLines(x), CompleteLines(Pending(x) + chunk));
  }

  /** Whatever the chunking, the decoder ends where splitting all the text
      received at once would put it: the buffer is the text after the last
      newline, and the messages have seen every complete line in order. */
  lemma {:induction false} RunClosedForm(d: Decoder, assistantId: string, classify: Classifier, chunks: seq<string>)
    requires |d.messages| > 0 && NoNewline(d.buffer)
    ensures Run(d, assistantId, classify, chunks)
         == Decoder(Pending(d.buffer + Concat(chunks)),
                    ProcessLines(d.messages, assistantId, classify, CompleteLines(d.buffer + Concat(chunks))))
    decreases |chunks|
  {
    if |chunks| == 0 {
      RunEmpty(d, assistantId, classify, chunks);
    } else {
      var init := chunks[..|chunks| - 1];
      var c := chunks[|chunks| - 1];
      var x := d.buffer + Concat(init);
      var t := d.buffer + Concat(chunks);
      assert t == x + c;
      var prev := Run(d, assistantId, classify, init);
      assert Run(d, assistantId, classify, chunks) == Step(prev, assistantId, classify, c);
      RunClosedForm(d, assistantId, classify, init);
      assert prev == Decoder(Pending(x), ProcessLines(d.messages, assistantId, classify, CompleteLines(x)));
      StepClosedForm(d.messages, assistantId, classify, x, c);
      assert Step(prev, assistantId, classify, c) == Decoder(Pending(t), ProcessLines(d.messages, assistantId, classify, CompleteLines(t)));
    }
  }

  lemma RunEmpty(d: Decoder, assistantId: string, classify: Classifier, chunks: seq<string>)
    requires |d.messages| > 0 && NoNewline(d.buffer) && |chunks| == 0
    ensures Run(d, assistantId, classify, chunks)
         == Decoder(Pending(d.buffer + Concat(chunks)),
                    ProcessLines(d.messages, assistantId, classify, CompleteLines(d.buffer + Concat(chunks))))
  {
    assert d.buffer + Concat(chunks) == d.buffer;
    NewlineFreeIsPending(d.buffer);
  }

  /** The decoder as the hook starts it: empty buffer, placeholder last. */
  function Start(msgs: seq<Message>, assistantId: string): (d: Decoder)
    ensures d.buffer == "" && |d.messages| == |msgs| + 1
    ensures d.messages[..|msgs|] == msgs && d.messages[|msgs|] == Placeholder(assistantId)
  {
    Decoder("", msgs + [Placeholder(assistantId)])
  }

  /** After every chunk the buffer holds no newline, and the lines processed so
      far, each closed by its newline, followed by the buffer, are all the text
      received so far. */
  lemma BufferInvariant(d: Decoder, assistantId: string, classify: Classifier, chunks: seq<string>)
    requires |d.messages| > 0 && d.buffer == ""
    ensures var r := Run(d, assistantId, classify, chunks);
      && NoNewline(r.buffer)
      && Flatten(CompleteLines(Concat(chunks))) + r.buffer == Concat(chunks)
      && r.messages == ProcessLines(d.messages, assistantId, classify, CompleteLines(Concat(chunks)))
  {
    RunClosedForm(d, assistantId, classify, chunks);
    assert d.buffer + Concat(chunks) == Concat(chunks);
    FramingOf(Concat(chunks));
  }

  /** Chunk-boundary invariance: two chunkings of the same text leave the
      decoder in the same state. */
  lemma ChunkBoundaryInvariance(d: Decoder, assistantId: string, classify: Classifier, c1: seq<string>, c2: seq<string>)
    requires |d.messages| > 0 && NoNewline(d.buffer)
    requires Concat(c1) == Concat(c2)
    ensures Run(d, assistantId, classify, c1) == Run(d, assistantId, classify, c2)
  {
    RunClosedForm(d, assistantId, classify, c1);
    RunClosedForm(d, assistantId, classify, c2);
  }

  /** In particular, any chunking behaves like receiving the whole text in
      one chunk. */
  lemma SingleChunkEquivalent(d: Decoder, assistantId: string, classify: Classifier, chunks: seq<string>)
    requires |d.messages| > 0 && NoNewline(d.buffer)
    ensures Run(d, assistantId, classify, chunks) == Run(d, assistantId, classify, [Concat(chunks)])
  {
    assert Concat([Concat(chunks)]) == Concat([]) + Concat(chunks);
    ChunkBoundaryInvariance(d, assistantId, classify, chunks, [Concat(chunks)]);
  }

  /** Message growth is append-only: at every point of the stream the earlier
      messages are the ones the decoder started with, and the text the last
      message has so far is a prefix of the text it ends with. */
  lemma AppendOnly(d: Decoder, assistantId: string, classify: Classifier, chunks: seq<string>, k: nat)
    requires |d.messages| > 0 && NoNewline(d.buffer)
    requires k <= |chunks|
    ensures var early := Run(d, assistantId, classify, chunks[..k]).messages;
            var late := Run(d, assistantId, classify, chunks).messages;
            var n := |d.messages|;
      && |early| == n && |late| == n
      && early[..n - 1] == d.messages[..n - 1]
      && late[..n - 1] == d.messages[..n - 1]
      && early[n - 1].text <= late[n - 1].text
  {
    var m := d.messages;
    var x := d.buffer + Concat(chunks[..k]);
    var rest := Concat(chunks[k..]);
    assert chunks == chunks[..k] + chunks[k..];
    ConcatAppend(chunks[..k], chunks[k..]);
    assert d.buffer + Concat(chunks) == x + rest;
    RunClosedForm(d, assistantId, classify, chunks[..k]);
    RunClosedForm(d, assistantId, classify, chunks);
    CompleteLinesAppend(x, rest);
    var linesEarly := CompleteLines(x);
    var linesLate := CompleteLines(x + rest);
    ProcessLinesEffect(m, assistantId, classify, linesEarly);
    ProcessLinesEffect(m, assistantId, classify, linesLate);
    DeltasAppend(linesEarly, CompleteLines(Pending(x) + rest), classify);
  }

  /** Text after the last newline never reaches the messages: a final chunk
      without a newline leaves them as they were. */
  lemma TrailingPartialLineIgnored(d: Decoder, assistantId: string, classify: Classifier, chunks: seq<string>, tail: string)
    requires |d.messages| > 0 && NoNewline(d.buffer)
    requires NoNewline(tail)
    ensures Run(d, assistantId, classify, chunks + [tail]).messages == Run(d, assistantId, classify, chunks).messages
  {
    var x := d.buffer + Concat(chunks);
    assert (chunks + [tail])[..|chunks|] == chunks;
    assert d.buffer + Concat(chunks + [tail]) == x + tail;
    RunClosedForm(d, assistantId, classify, chunks);
    RunClosedForm(d, assistantId, classify, chunks + [tail]);
    CompleteLinesNoNewline(x, tail);
  }

  /** The body of a successful response: the decoded chunks the reader
      delivered, and whether a further read rejected instead of reporting the
      end of the stream. */
  datatype Body = Body(chunks: seq<string>, readFails: bool)

  /** What `fetch` produced. */
  datatype Reply =
    | FetchRejected
    | Received(ok: bool, status: int, body: Option<Body>)

  /** Lines 34-36: the user message appended, streaming, error cleared. */
  function Submit(s: ChatState, text: string, userId: string): (r: ChatState)
    ensures |r.messages| == |s.messages| + 1
    ensures r.messages[..|s.messages|] == s.messages
    ensures r.messages[|s.messages|..] == [Message(User, userId, text)]
    ensures r.status == Streaming && r.error == None
  {
    ChatState(s.messages + [Message(User, userId, text)], Streaming, None)
  }

  /** The state `sendMessage` leaves once its promise settles. `userId` and
      `assistantId` stand for the clock-derived ids, `parse` for `JSON.parse`,
      `reply` for the network. */
  function SendMessage(s: ChatState, text: string, userId: string, assistantId: string,
                       parse: Parser, reply: Reply): (r: ChatState)
    ensures Trim(text) == "" ==> r == s
    ensures Trim(text) != "" ==>
              && |r.messages| > |s.messages|
              && r.messages[..|s.messages| + 1] == s.messages + [Message(User, userId, text)]
              && r.status != Streaming
              && (r.status == Error <==> r.error.Some?)
    ensures Trim(text) != "" && reply.FetchRejected? ==>
              r == ChatState(s.messages + [Message(User, userId, text)], Error, Some(NetworkError))
    ensures Trim(text) != "" && reply.Received? && !reply.ok ==>
              r == ChatState(s.messages + [Message(User, userId, text)], Error, Some(HttpError(reply.status)))
    ensures Trim(text) != "" && reply.Received? && reply.ok && reply.body.None? ==>
              r == ChatState(s.messages + [Message(User, userId, text)], Error, Some(NoResponseBody))
  {
    if Trim(text) == "" then s
    else Settle(Submit(s, text, userId).messages, assistantId, parse, reply)
  }

  /** Lines 37-123 after the user message is in place: how the reply ends the
      request. Nothing already sent is ever taken back. */
  function Settle(sent: seq<Message>, assistantId: string, parse: Parser, reply: Reply): (r: ChatState)
    ensures |r.messages| >= |sent| && r.messages[..|sent|] == sent
    ensures r.status != Streaming
    ensures r.status == Error <==> r.error.Some?
    ensures reply.FetchRejected? ==> r == ChatState(sent, Error, Some(NetworkError))
    ensures reply.Received? && !reply.ok ==> r == ChatState(sent, Error, Some(HttpError(reply.status)))
    ensures reply.Received? && reply.ok && reply.body.None? ==> r == ChatState(sent, Error, Some(NoResponseBody))
    ensures reply.Received? && reply.ok && reply.body.Some? ==> r == Stream(sent, assistantId, parse, reply.body.value)
  {
    match reply
    case FetchRejected => ChatState(sent, Error, Some(NetworkError))
    case Received(ok, status, body) =>
      if !ok then ChatState(sent, Error, Some(HttpError(status)))
      else if body.None? then ChatState(sent, Error, Some(NoResponseBody))
      else Stream(sent, assistantId, parse, body.value)
  }

  /** Lines 50-118, once the response is ok and has a body: the placeholder
      appended, every chunk read and folded in, then idle, or an error when a
      read rejects. The messages sent before are kept. */
  function Stream(sent: seq<Message>, assistantId: string, parse: Parser, body: Body): (r: ChatState)
    ensures r.messages
         == sent + [Message(Assistant, assistantId, Deltas(CompleteLines(Concat(body.chunks)), LineClassifier(parse)))]
    ensures r.status == (if body.readFails then Error else Idle)
    ensures r.error == (if body.readFails then Some(NetworkError) else None)
  {
    var d := Run(Start(sent, assistantId), assistantId, LineClassifier(parse), body.chunks);
    StreamedMessages(sent, assistantId, LineClassifier(parse), body.chunks);
    if body.readFails then ChatState(d.messages, Error, Some(NetworkError))
    else ChatState(d.messages, Idle, None)
  }

  /** Lines 21-22: a blank draft is the only input that leaves the state as
      it was; anything else at least records the user message. */
  lemma BlankInputOnlyNoOp(s: ChatState, text: string, userId: string, assistantId: string,
                           parse: Parser, reply: Reply)
    ensures SendMessage(s, text, userId, assistantId, parse, reply) == s <==> Trim(text) == ""
  {
    var r := SendMessage(s, text, userId, assistantId, parse, reply);
    if Trim(text) != "" {
      assert |r.messages| != |s.messages|;
    }
  }

  lemma AppendTwo(prefix: seq<Message>, first: Message, second: Message)
    ensures prefix + [first] + [second] == prefix + [first, second]
  {
  }

  /** A stream that ends normally leaves the user message followed by the
      assistant message `assistantId`, whose text is the in-order concatenation
      of the deltas of the complete lines received; the state is idle with no
      error. */
  lemma CompletedStream(s: ChatState, text: string, userId: string, assistantId: string,
                        parse: Parser, status: int, chunks: seq<string>)
    requires Trim(text) != ""
    ensures SendMessage(s, text, userId, assistantId, parse, Received(true, status, Some(Body(chunks, false))))
         == ChatState(s.messages + [Message(User, userId, text),
                                    Message(Assistant, assistantId, Deltas(CompleteLines(Concat(chunks)), LineClassifier(parse)))],
                      Idle, None)
  {
    var sent := s.messages + [Message(User, userId, text)];
    var body := Body(chunks, false);
    var reply := Message(Assistant, assistantId, Deltas(CompleteLines(Concat(chunks)), LineClassifier(parse)));
    assert SendMessage(s, text, userId, assistantId, parse, Received(true, status, Some(body)))
        == Stream(sent, assistantId, parse, body);
    AppendTwo(s.messages, Message(User, userId, text), reply);
  }

  /** A read that rejects part way keeps everything streamed so far and
      reports a network error. */
  lemma InterruptedStream(s: ChatState, text: string, userId: string, assistantId: string,
                          parse: Parser, status: int, chunks: seq<string>)
    requires Trim(text) != ""
    ensures SendMessage(s, text, userId, assistantId, parse, Received(true, status, Some(Body(chunks, true))))
         == ChatState(s.messages + [Message(User, userId, text),
                                    Message(Assistant, assistantId, Deltas(CompleteLines(Concat(chunks)), LineClassifier(parse)))],
                      Error, Some(NetworkError))
  {
    var sent := s.messages + [Message(User, userId, text)];
    var body := Body(chunks, true);
    var reply := Message(Assistant, assistantId, Deltas(CompleteLines(Concat(chunks)), LineClassifier(parse)));
    assert SendMessage(s, text, userId, assistantId, parse, Received(true, status, Some(body)))
        == Stream(sent, assistantId, parse, body);
    AppendTwo(s.messages, Message(User, userId, text), reply);
  }

  /** The first exchange of a fresh hook: from the initial state, a
      non-blank draft answered by a stream that ends normally leaves exactly
      two messages, the user's and the assistant's. */
  lemma FirstExchange(text: string, userId: string, assistantId: string,
                      parse: Parser, status: int, chunks: seq<string>)
    ensures Trim(text) != "" ==>
              SendMessage(InitialState, text, userId, assistantId, parse, Received(true, status, Some(Body(chunks, false))))
              == ChatState([Message(User, userId, text),
                            Message(Assistant, assistantId, Deltas(CompleteLines(Concat(chunks)), LineClassifier(parse)))],
                           Idle, None)
  {
    if Trim(text) != "" {
      CompletedStream(InitialState, text, userId, assistantId, parse, status, chunks);
      var pair := [Message(User, userId, text),
                   Message(Assistant, assistantId, Deltas(CompleteLines(Concat(chunks)), LineClassifier(parse)))];
      assert InitialState.messages + pair == pair;
    }
  }

  /** The messages after streaming `chunks` into a fresh placeholder. */
  lemma StreamedMessages(sent: seq<Message>, assistantId: string, classify: Classifier, chunks: seq<string>)
    ensures Run(Start(sent, assistantId), assistantId, classify, chunks).messages
         == sent + [Message(Assistant, assistantId, Deltas(CompleteLines(Concat(chunks)), classify))]
  {
    var start := Start(sent, assistantId);
    RunClosedForm(start, assistantId, classify, chunks);
    assert "" + Concat(chunks) == Concat(chunks);
    PlaceholderFilled(sent, assistantId, classify, CompleteLines(Concat(chunks)));
  }

  /** Lines folded into a fresh placeholder leave it holding their deltas. */
  lemma PlaceholderFilled(sent: seq<Message>, assistantId: string, classify: Classifier, lines: seq<string>)
    ensures ProcessLines(sent + [Placeholder(assistantId)], assistantId, classify, lines)
         == sent + [Message(Assistant, assistantId, Deltas(lines, classify))]
  {
    var start := sent + [Placeholder(assistantId)];
    var deltas := Deltas(lines, classify);
    var r := ProcessLines(start, assistantId, classify, lines);
    ProcessLinesEffect(start, assistantId, classify, lines);
    assert start[..|sent|] == sent;
    assert r[..|sent|] == sent;
    assert r[|sent|].text == "" + deltas;
    assert r[|sent|].role == Assistant && r[|sent|].id == assistantId by {
      if r == start {
        assert r[|sent|] == Placeholder(assistantId);
      }
    }
    assert r == r[..|sent|] + [r[|sent|]];
  }

  /** The settled state does not depend on how the response text was cut
      into chunks. */
  lemma SendMessageChunkInvariant(s: ChatState, text: string, userId: string, assistantId: string,
                                  parse: Parser, status: int, c1: seq<string>, c2: seq<string>, readFails: bool)
    requires Concat(c1) == Concat(c2)
    ensures SendMessage(s, text, userId, assistantId, parse, Received(true, status, Some(Body(c1, readFails))))
         == SendMessage(s, text, userId, assistantId, parse, Received(true, status, Some(Body(c2, readFails))))
  {
    if Trim(text) != "" {
      var sent := s.messages + [Message(User, userId, text)];
      StreamedMessages(sent, assistantId, LineClassifier(parse), c1);
      StreamedMessages(sent, assistantId, LineClassifier(parse), c2);
    }
  }

  /** A partial line left in the buffer at the end of the stream contributes
      nothing to the settled state. */
  lemma SendMessageDropsPartialLine(s: ChatState, text: string, userId: string, assistantId: string,
                                    parse: Parser, status: int, chunks: seq<string>, tail: string, readFails: bool)
    requires NoNewline(tail)
    ensures SendMessage(s, text, userId, assistantId, parse, Received(true, status, Some(Body(chunks + [tail], readFails))))
         == SendMessage(s, text, userId, assistantId, parse, Received(true, status, Some(Body(chunks, readFails))))
  {
    ConcatAppend(chunks, [tail]);
    assert Concat([tail]) == tail;
    CompleteLinesNoNewline(Concat(chunks), tail);
  }

  /** The inner loop of lines 78-114: each complete line folded into the
      messages in order. */
  method FoldLines(msgs: seq<Message>, assistantId: string, classify: Classifier, lines: seq<string>)
    returns (messages: seq<Message>)
    requires |msgs| > 0
    ensures messages == ProcessLines(msgs, assistantId, classify, lines)
  {
    messages := msgs;
    var j := 0;
    while j < |lines|
      invariant 0 <= j <= |lines|
      invariant |messages| == |msgs|
      invariant messages == ProcessLines(msgs, assistantId, classify, lines[..j])
    {
      messages := ProcessLine(messages, assistantId, classify, lines[j]);
      assert lines[..j + 1][..j] == lines[..j];
      j := j + 1;
    }
    assert lines[..|lines|] == lines;
  }

  /** The read loop of lines 68-116 as the source writes it: read a chunk,
      append it to the buffer, split, keep the last piece, and fold the
      complete lines into the messages one by one. It computes what `Run`
      defines. */
  method ReadChunks(msgs: seq<Message>, assistantId: string, classify: Classifier, chunks: seq<string>)
    returns (buffer: string, messages: seq<Message>)
    requires |msgs| > 0
    ensures Decoder(buffer, messages) == Run(Decoder("", msgs), assistantId, classify, chunks)
  {
    buffer := "";
    messages := msgs;
    var i := 0;
    while i < |chunks|
      invariant 0 <= i <= |chunks|
      invariant Decoder(buffer, messages) == Run(Decoder("", msgs), assistantId, classify, chunks[..i])
    {
      var parts := Split(buffer + chunks[i]);
      var lines := parts[..|parts| - 1];
      buffer := parts[|parts| - 1];
      messages := FoldLines(messages, assistantId, classify, lines);
      assert chunks[..i + 1][..i] == chunks[..i];
      i := i + 1;
    }
    assert chunks[..|chunks|] == chunks;
  }

  /** What the read loop leaves behind: a buffer without a newline that,
      after the complete lines, spells out all the text received; the
      messages before the last untouched; and the last one extended by the
      deltas of the complete lines, in order. */
  method ReadStream(msgs: seq<Message>, assistantId: string, classify: Classifier, chunks: seq<string>)
    returns (buffer: string, messages: seq<Message>)
    requires |msgs| > 0
    ensures NoNewline(buffer)
    ensures Flatten(CompleteLines(Concat(chunks))) + buffer == Concat(chunks)
    ensures |messages| == |msgs| && messages[..|msgs| - 1] == msgs[..|msgs| - 1]
    ensures messages[|msgs| - 1].text == msgs[|msgs| - 1].text + Deltas(CompleteLines(Concat(chunks)), classify)
  {
    buffer, messages := ReadChunks(msgs, assistantId, classify, chunks);
    BufferInvariant(Decoder("", msgs), assistantId, classify, chunks);
    ProcessLinesEffect(msgs, assistantId, classify, CompleteLines(Concat(chunks)));
  }
}
