# Verified model of the chat client's stream decoder and transport selection

This project models the logic of the pet-care chat front end that is not
UI or network glue. It covers three parts.

- **`sendMessage` in the `useAIChat` hook.** The guard on blank input, the
  user message, and the assistant placeholder. Then the incremental decoder:
  each decoded text chunk is appended to a buffer, the buffer is split on
  `'\n'`, and the last piece is kept. Each complete line is classified as a
  `data: ` frame. Its trimmed payload is either skipped as `[DONE]` or
  parsed as JSON, and a non-empty `text-delta` is folded into the last
  message. This is the `data:` field framing of server-sent events (WHATWG
  HTML Living Standard, section 9.2) in a simplified form. Only the exact
  prefix `data: ` counts, and only `'\n'` ends a line. The hook's three React
  state cells (messages, status, error) become one immutable `ChatState`
  record. The decoder's state is a `Decoder` record, and one pure step
  function is folded over the chunk sequence.
- **`createAuthenticatedChatTransport`.** This is a pure function from
  sign-in state, ID token, pet key and base URL to the endpoint and headers
  given to the chat transport.
- **The chat page's `chatId` memo and its pet-key normalisation.**
  `selectedPetId || undefined` turns "no pet selected" into an absent key.

Modules: `Options` (optional values), `Text` (JavaScript `trim`,
`startsWith` and `split('\n')`, plus the framing lemmas), `Sse` (frame
classification and deltas), `AiChat` (the message fold, the decoder,
`sendMessage`, and the read loop as an imperative method), `ChatTransport`,
and `ChatPage`.

Parameters stand in for what the model cannot see:
- `JSON.parse` is a function parameter `parse: string -> Option<Record>`.
  `None` means the parse threw.
- The clock-derived ids `user-${Date.now()}` and `assistant-${Date.now()}`
  are the opaque parameters `userId` and `assistantId`.
- The network is a `Reply` value. It is one of: a rejected fetch; a response
  that is not ok; a response with no body; or a body given as its
  already-decoded chunks, plus a flag saying whether a further read rejected.

Behaviour of the code worth spelling out:
- **`unspecified` pet key.** It is forwarded as an ordinary `X-Pet-Key`
  (`ChatTransport.EveryPetKeyForwarded`).
- **`finish` and `[DONE]`.** They are only logged or skipped, and later lines
  are still processed (`AiChat.SkippedLine`, `AiChat.SkippedFrame`).
- **Malformed frames.** A payload `JSON.parse` rejects is logged and changes
  nothing (`Sse.Frame.Malformed`, `AiChat.SkippedFrame`).
- **Read failure.** A rejected read keeps the partial assistant text and sets
  the error state (`AiChat.InterruptedStream`).
- **The request.** The hook posts to a fixed URL with only the current
  text. It does not send the history, and it does not use the transport.

## Model

| member | source | states |
|---|---|---|
| Text.IsWhitespace | src/hooks/aichat.ts:80 | The characters `trim()` strips are ECMAScript's WhiteSpace and LineTerminator set. All of them lie in the Basic Multilingual Plane, and space, tab, line feed and carriage return are among them. |
| Text.Trim | src/hooks/aichat.ts:80 | `trim()` returns a string with no whitespace at either end, never longer than its input. |
| Text.TrimBlank | src/hooks/aichat.ts:21 | `trim()` returns the empty string exactly when the input is all ECMAScript whitespace or line terminators. This is the test `!params.text.trim()` makes. |
| Text.TrimPadded | src/hooks/aichat.ts:80 | Whitespace added before or after a string never changes what `trim()` returns. |
| Text.TrimOfTrimmed | src/hooks/aichat.ts:80 | A string with no whitespace at either end is returned unchanged by `trim()`. |
| Text.TrimIdempotent | src/hooks/aichat.ts:80 | Trimming twice is the same as trimming once. |
| Text.TrimStart | src/hooks/aichat.ts:80 | The result is a suffix of the input that is empty or starts with a non-whitespace character. |
| Text.TrimStartDropsWhitespace | src/hooks/aichat.ts:80 | Everything the leading trim drops is whitespace, so it drops exactly the leading whitespace. |
| Text.TrimEnd | src/hooks/aichat.ts:80 | The result is a prefix of the input that is empty or ends with a non-whitespace character. |
| Text.TrimEndDropsWhitespace | src/hooks/aichat.ts:80 | Everything the trailing trim drops is whitespace, so it drops exactly the trailing whitespace. |
| Text.StartsWith | src/hooks/aichat.ts:79 | `line.startsWith('data: ')`: when it holds, the line is the prefix followed by the rest of the line. |
| Text.StartsWithAppend | src/hooks/aichat.ts:79 | The converse: a prefix followed by anything starts with that prefix. |
| Text.Split | src/hooks/aichat.ts:73 | `split('\n')` always returns at least one piece, so `lines.pop()` always has a last piece to take. |
| Text.SplitSpells | src/hooks/aichat.ts:73-76 | No piece of `split('\n')` contains a newline. The complete lines, each followed by its newline, then the kept last piece, give back the original text. |
| Text.FramingOf | src/hooks/aichat.ts:73-76 | The complete lines and the pending piece are all newline-free, and the lines, each followed by its newline, then the pending piece, spell the text. |
| Text.SplitOfFramed | src/hooks/aichat.ts:73-76 | The inverse direction: newline-free lines joined by newlines, followed by a newline-free tail, split back into exactly those lines and that tail. |
| Text.FramingUnique | src/hooks/aichat.ts:73-76 | A text has only one way to be written as newline-terminated, newline-free lines followed by newline-free pending text. |
| Text.CompleteLinesAppend | src/hooks/aichat.ts:72-76 | Splitting `x + rest` gives the lines of `x`, then the lines of (the text `x` left pending, followed by `rest`). The pending text agrees with splitting the two parts one after the other. |
| Text.CompleteLinesNoNewline | src/hooks/aichat.ts:72-76 | Appending text with no newline completes no line. It only extends the pending text. |
| Sse.Payload | src/hooks/aichat.ts:80 | `line.slice(6).trim()`: the payload has no whitespace at either end, is no longer than the text after the prefix, and is empty exactly when that text is all whitespace. |
| Sse.Classify | src/hooks/aichat.ts:79-113 | A line is a data frame exactly when it starts with `data: `. It is `[DONE]` exactly when its trimmed payload is `[DONE]`. A malformed frame is one whose payload fails to parse. A text delta carries the non-empty `delta` of a parsed `text-delta` record. |
| Sse.ClassifyPayload | src/hooks/aichat.ts:83-113 | A trimmed payload is `[DONE]` exactly when it equals the marker. A malformed frame is one whose payload fails to parse. A text delta is a parsed `text-delta` record with a non-empty delta, and that delta is its text. |
| Sse.DeltaCharacterization | src/hooks/aichat.ts:79-105 | A line adds text to the assistant message if and only if it is a `data: ` line whose payload is not `[DONE]` and parses to a `text-delta` record with a truthy delta. The text it adds is that delta. |
| Sse.PayloadPaddingIrrelevant | src/hooks/aichat.ts:80 | Whitespace between `data: ` and the payload, or after the payload, never changes how a line is classified. |
| Sse.ClassifyDataLine | src/hooks/aichat.ts:79-113 | A line that starts with `data: ` is classified by what follows the six-character prefix, trimmed, and by nothing else. |
| Sse.DeltasAppend | src/hooks/aichat.ts:78-105 | The deltas of two runs of lines, one after the other, are the first run's deltas followed by the second's. |
| Sse.HookDeltasNonEmpty | src/hooks/aichat.ts:93 | Every text delta the hook's classifier yields is non-empty: a delta that adds no text is classified as ignored. |
| Sse.NoDeltasIffNoTextDeltaFor | src/hooks/aichat.ts:93-105 | For a classifier whose deltas are non-empty, a run of lines carries no text exactly when none of its lines is a text delta. |
| Sse.NoDeltasIffNoTextDelta | src/hooks/aichat.ts:93-105 | Under the hook's classifier a run of lines carries no text at all exactly when none of its lines is a text delta. |
| AiChat.Placeholder | src/hooks/aichat.ts:61-65 | The placeholder is an assistant message with id `assistantId` and empty text. |
| AiChat.Start | src/hooks/aichat.ts:57-66 | The decoder starts with an empty buffer and the messages followed by the placeholder as the last message. |
| AiChat.AppendDelta | src/hooks/aichat.ts:94-104 | The delta updater keeps the message count and every earlier message. It replaces the last message with the assistant message `assistantId` whose text is the old text followed by the delta. |
| AiChat.ProcessLine | src/hooks/aichat.ts:78-114 | One complete line keeps the count and the earlier messages, and extends the last message's text by exactly that line's delta. A line that is not a text delta leaves the messages as they were. A text delta makes the last message the assistant message `assistantId`. |
| AiChat.ProcessLines | src/hooks/aichat.ts:78-115 | Folding any lines into the messages keeps the message count. |
| AiChat.ProcessLinesAppend | src/hooks/aichat.ts:78-115 | Folding two runs of lines in a row is the same as folding them as one run. |
| AiChat.ProcessLinesEffect | src/hooks/aichat.ts:93-104 | Lines keep the count and every message but the last. The last message's text gains the in-order deltas. With no delta nothing changes; with one, the last message becomes the assistant message `assistantId`. |
| AiChat.SkippedLine | src/hooks/aichat.ts:78-114 | For any line classifier, a line that is not a text delta changes nothing. Later lines are processed as if it were absent. |
| AiChat.SkippedFrame | src/hooks/aichat.ts:79-113 | With the hook's classifier, a non-data line, `[DONE]`, a payload that fails to parse, a record whose type is not `text-delta` (`finish` included), or a `text-delta` with an empty delta changes nothing. Later lines are processed as if it were absent. |
| AiChat.Receive | src/hooks/aichat.ts:72-76 | After a chunk, the new buffer and the completed lines contain no newline. The completed lines, each followed by its newline, then the new buffer, are the old buffer followed by the chunk. |
| AiChat.Step | src/hooks/aichat.ts:72-115 | After each read the buffer contains no newline and the message count is unchanged. |
| AiChat.Run | src/hooks/aichat.ts:68-116 | The read loop keeps the message count. After at least one chunk, the buffer contains no newline. |
| AiChat.RunClosedForm | src/hooks/aichat.ts:68-116 | After any sequence of chunks, the buffer is the text after the last newline of everything received. The messages have been given every complete line, in order. |
| AiChat.BufferInvariant | src/hooks/aichat.ts:72-76 | Starting from an empty buffer: the buffer never contains a newline. The processed lines, each followed by its newline, then the buffer, equal all text received. |
| AiChat.ChunkBoundaryInvariance | src/hooks/aichat.ts:68-78 | Two chunkings of the same text leave the decoder in the same state, with the same buffer and the same messages. |
| AiChat.SingleChunkEquivalent | src/hooks/aichat.ts:68-78 | Any chunking ends in the same state as receiving all the text in one chunk. |
| AiChat.AppendOnly | src/hooks/aichat.ts:94-104 | At every point of the stream the earlier messages are the original ones. The last message's text so far is a prefix of its final text. |
| AiChat.TrailingPartialLineIgnored | src/hooks/aichat.ts:70-76 | A final chunk with no newline leaves the messages unchanged, so a trailing partial line is dropped. |
| AiChat.Submit | src/hooks/aichat.ts:23-36 | Submitting appends exactly one user message carrying the input text and id, sets the status to streaming, and clears the error. |
| AiChat.SendMessage | src/hooks/aichat.ts:20-124 | A blank input leaves the state unchanged. Otherwise the user message is appended and the call ends idle or in error, with the error set exactly when in error. On a rejected fetch, a non-ok response or a missing body, only the user message is added: no placeholder. The status is `error` with a network, HTTP-status or no-body failure respectively. |
| AiChat.BlankInputOnlyNoOp | src/hooks/aichat.ts:21-34 | The state is unchanged if and only if the input is blank after trimming. Any other input at least records the user message. |
| AiChat.Settle | src/hooks/aichat.ts:38-123 | Once the user message is in place, nothing already sent is taken back, and the call never ends streaming. The error is set exactly when the status is `error`. A rejected fetch, a non-ok response and a missing body each give their own failure and add no placeholder. An ok response with a body is streamed. |
| AiChat.Stream | src/hooks/aichat.ts:53-122 | An ok response with a body leaves the sent messages followed by one assistant message `assistantId` holding the deltas of the complete lines received. It ends idle with no error, or with a network error when a read rejected. |
| AiChat.CompletedStream | src/hooks/aichat.ts:53-118 | A stream that ends normally leaves the user message, then the assistant message `assistantId` whose text is the in-order deltas of the complete lines. The state is idle with no error. |
| AiChat.InterruptedStream | src/hooks/aichat.ts:68-122 | A read that rejects part way keeps the assistant text streamed so far. The status is `error` with a network failure. |
| AiChat.FirstExchange | src/hooks/aichat.ts:16-18 | From the hook's initial state (no messages, idle, no error), a non-blank draft answered by a normally ending stream leaves exactly the user message and the assistant message holding the deltas, idle with no error. |
| AiChat.StreamedMessages | src/hooks/aichat.ts:58-116 | Streaming into a fresh placeholder leaves the earlier messages, then one assistant message holding the deltas of the complete lines. |
| AiChat.PlaceholderFilled | src/hooks/aichat.ts:61-104 | Complete lines folded into an empty placeholder leave it holding exactly their in-order deltas. |
| AiChat.SendMessageChunkInvariant | src/hooks/aichat.ts:68-78 | The settled state of `sendMessage` does not depend on how the response text was split into chunks. |
| AiChat.SendMessageDropsPartialLine | src/hooks/aichat.ts:70-76 | A trailing partial line at end of stream contributes nothing to the settled state. |
| AiChat.FoldLines | src/hooks/aichat.ts:78-115 | The inner `for` loop, run line by line, computes the fold of the complete lines into the messages. |
| AiChat.ReadChunks | src/hooks/aichat.ts:68-116 | The read loop as the source writes it (read, append, split, pop, fold each line) computes the decoder state of the chunk fold. |
| AiChat.ReadStream | src/hooks/aichat.ts:68-116 | The read loop ends with a newline-free buffer that, after the complete lines each followed by its newline, spells all the text received. Every earlier message is unchanged, and the last message's text gains exactly the in-order deltas of the complete lines. |
| ChatTransport.UsesAuthenticated | src/lib/chatTransport.ts:23 | `isAuthenticated && idToken` holds exactly when signed in with a token that is neither absent nor empty. |
| ChatTransport.BaseUrl | src/lib/chatTransport.ts:18 | An omitted base URL defaults to `http://localhost:8080`. A given one, even empty, is kept. |
| ChatTransport.EndpointsDiffer | src/lib/chatTransport.ts:35-43 | For any base URL, the authenticated and anonymous endpoints differ. |
| ChatTransport.CreateTransport | src/lib/chatTransport.ts:14-45 | The endpoint is the authenticated one exactly when `isAuthenticated` holds and the token is non-empty, and the anonymous one otherwise. `Authorization` is present on exactly that branch, with value `Bearer ` plus the token. `X-Pet-Key` is present exactly on that branch with a non-empty pet key, with the key as its value. No other header is ever set. |
| ChatTransport.HeadersRoundTrip | src/lib/chatTransport.ts:23-37 | Reading the headers back recovers the token and the pet key on the authenticated branch, and nothing otherwise. |
| ChatTransport.AnonymousTransport | src/lib/chatTransport.ts:40-44 | Off the authenticated branch the transport is the anonymous endpoint with no headers at all, so the pet key is never sent there. |
| ChatTransport.EveryPetKeyForwarded | src/lib/chatTransport.ts:29-32 | On the authenticated branch every non-empty pet key, `unspecified` included, is sent as `X-Pet-Key` next to `Authorization`. |
| ChatPage.ChatId | src/app/page.tsx:31-36 | The chat id has the authenticated prefix exactly when signed in. Signed out it is `anonymous-chat`, whatever pet is selected. |
| ChatPage.PetKeyFor | src/app/page.tsx:24 | An empty selection becomes an absent pet key. Any other selection is passed as it is. |
| ChatPage.PageTransport | src/app/page.tsx:18-28 | The page sends `X-Pet-Key` exactly when signed in with a non-empty token and a pet selected, with the selected pet as its value. It always uses the default base URL. |
| ChatPage.AuthenticatedChatIds | src/app/page.tsx:30-33 | When signed in, two selections share a chat id if and only if they are equal, with one exception. A pet whose key is `no-pet` collides with having no pet selected. |
| ChatPage.PetChangeResetsChat | src/app/page.tsx:30-33 | When signed in, changing from one selected pet to a different one always changes the chat id. |
| ChatPage.SignInResetsChat | src/app/page.tsx:31-36 | A signed-in chat id never equals a signed-out one, so signing in or out always resets the chat. |
| ChatPage.ChatIdIgnoresToken | src/app/page.tsx:18-36 | Signed in without a token, the chat id is an authenticated one, but requests go to the anonymous endpoint with no headers. |

The fold (`AiChat.ProcessLines`, `AiChat.Run`) takes the line classifier as a
parameter. The hook's own classifier is `Sse.LineClassifier(parse)`, which is
`Sse.Classify` with `parse` standing for `JSON.parse`. Facts about the fold
hold for any classifier; `AiChat.SendMessage` and the lemmas about it use the
hook's.

## Left out

- `fetch`, the stream reader and `TextDecoder` are I/O and a foreign codec. The model receives already-decoded text chunks. UTF-8 sequences split across chunks, and the missing final `decode()` flush, are not modelled.
- `JSON.parse` is a foreign call and stays an abstract parameter. `Record.kind` is the `type` field when it is a string. `Record.delta` is the text that `currentText + data.delta` appends when `delta` is truthy, and "" otherwise. A payload of `null`, whose `.type` read throws inside the `try`, is a parse failure. A truthy `delta` that renders as the empty string (such as `[]`) runs the updater in the source but is merged here with a falsy delta and classified as ignored; the hook's state is the same either way, because the last message is already the `assistantId` placeholder holding that text.
- Message `parts` is modelled as the single text part the hook always builds and reads through `parts[0]`.
- The request itself is not modelled: its fixed URL, headers and JSON body are network I/O.
- Console logging, including the `finish` log and the `[DONE]` log, is left out. It has no effect on state.
- Concurrent `sendMessage` calls are left out. Two overlapping calls would interleave their updaters, and the model settles one call at a time.
- React rendering, hooks and memoisation are left out. Each state setter is applied in order to one state record, and the memos are plain functions.
- Authentication context, the Firebase client, the pet directory fetch, the API proxy route, the weather page, configuration and type files are outside the modelled core. They are SDK calls, UI or declarations.
- The anonymous transport passes no `headers` option at all. The model represents this as an empty header map.
