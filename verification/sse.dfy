/**
  Classification of one complete line of the event stream (src/hooks/aichat.ts,
  lines 78-114). This is the `data:` field framing of server-sent events
  (WHATWG HTML Living Standard, section 9.2) in the simplified form the chat
  hook implements: only the exact prefix `data: ` is recognised, the rest of
  the line is trimmed, and the payload is a JSON record.
 */
module Sse {
  import opened Options
  import opened Text

  const DataPrefix := "data: "
  const DoneMarker := "[DONE]"
  const TextDeltaType := "text-delta"
  const FinishType := "finish"

  /** The two fields of a parsed payload that the hook inspects.
      `kind` is the `type` field when it is a string, `None` otherwise;
      `delta` is the text that appending the `delta` field produces when that
      field is truthy, and "" when it is absent or falsy. */
  datatype Record = Record(kind: Option<string>, delta: string)

  /** `JSON.parse` followed by the property reads: `None` when it throws,
      which includes a payload of `null`, whose `.type` read throws. */
  type Parser = string -> Option<Record>

  /** What one complete line means to the message fold. */
  datatype Frame =
    | NotData                  // no `data: ` prefix: skipped
    | Done                     // the `[DONE]` sentinel: skipped
    | Malformed(payload: string) // JSON.parse threw: warned and skipped
    | TextDelta(text: string)  // a `text-delta` record with a non-empty delta
    | Finish                   // a `finish` record: only logged
    | Ignored                  // any other record

  /** The line with the six-character prefix removed, then trimmed. */
  function Payload(line: string): (p: string)
    requires StartsWith(line, DataPrefix)
    ensures IsTrimmed(p) && |p| <= |line| - |DataPrefix|
    ensures p == "" <==> AllWhitespace(line[|DataPrefix|..])
  {
    TrimBlank(line[|DataPrefix|..]);
    Trim(line[|DataPrefix|..])
  }

  function Classify(line: string, parse: Parser): (f: Frame)
    ensures f.NotData? <==> !StartsWith(line, DataPrefix)
    ensures f.Done? <==> StartsWith(line, DataPrefix) && Payload(line) == DoneMarker
    ensures f.Malformed? ==> f.payload == Payload(line) && parse(f.payload).None?
    ensures f.TextDelta? ==>
              && StartsWith(line, DataPrefix) && Payload(line) != DoneMarker
              && f.text != ""
              && parse(Payload(line)) == Some(Record(Some(TextDeltaType), f.text))
  {
    if !StartsWith(line, DataPrefix) then NotData
    else ClassifyPayload(Payload(line), parse)
  }

  /** What a data line's trimmed payload means. */
  function ClassifyPayload(payload: string, parse: Parser): (f: Frame)
    ensures !f.NotData?
    ensures f.Done? <==> payload == DoneMarker
    ensures f.Malformed? ==> f.payload == payload && parse(payload).None?
    ensures f.TextDelta? ==>
              && payload != DoneMarker && f.text != ""
              && parse(payload) == Some(Record(Some(TextDeltaType), f.text))
  {
    if payload == DoneMarker then Done
    else
      match parse(payload)
      case None => Malformed(payload)
      case Some(record) =>
        if record.kind == Some(TextDeltaType) && record.delta != "" then TextDelta(record.delta)
        else if record.kind == Some(FinishType) then Finish
        else Ignored
  }

  /** How the message fold sees each complete line. */
  type Classifier = string -> Frame

  /** The hook's classifier, with `parse` standing for `JSON.parse`. */
  function LineClassifier(parse: Parser): Classifier {
    line => Classify(line, parse)
  }

  /** The text a frame contributes to the assistant message. */
  function FrameDelta(f: Frame): string {
    if f.TextDelta? then f.text else ""
  }

  /** The text a line contributes to the assistant message. */
  function DeltaOf(line: string, parse: Parser): string {
    FrameDelta(Classify(line, parse))
  }

  /** The in-order concatenation of the deltas carried by `lines`. */
  function Deltas(lines: seq<string>, classify: Classifier): string
    decreases |lines|
  {
    if |lines| == 0 then ""
    else Deltas(lines[..|lines| - 1], classify) + FrameDelta(classify(lines[|lines| - 1]))
  }

  lemma {:induction false} DeltasAppend(a: seq<string>, b: seq<string>, classify: Classifier)
    ensures Deltas(a + b, classify) == Deltas(a, classify) + Deltas(b, classify)
    decreases |b|
  {
    if |b| == 0 {
      assert a + b == a;
    } else {
      var init := b[..|b| - 1];
      assert (a + b)[..|a + b| - 1] == a + init;
      DeltasAppend(a, init, classify);
    }
  }

  /** A classifier whose text deltas are never empty, as the hook's are. */
  ghost predicate DeltasNonEmpty(classify: Classifier) {
    forall line :: classify(line).TextDelta? ==> classify(line).text != ""
  }

  lemma HookDeltasNonEmpty(parse: Parser)
    ensures DeltasNonEmpty(LineClassifier(parse))
  {
    forall line ensures LineClassifier(parse)(line).TextDelta? ==> LineClassifier(parse)(line).text != "" {
      assert LineClassifier(parse)(line) == Classify(line, parse);
    }
  }

  /** With non-empty deltas, lines carry no text at all exactly when none
      of them is a text delta. */
  lemma {:induction false} NoDeltasIffNoTextDeltaFor(lines: seq<string>, classify: Classifier)
    requires DeltasNonEmpty(classify)
    ensures Deltas(lines, classify) == "" <==> forall i | 0 <= i < |lines| :: !classify(lines[i]).TextDelta?
    decreases |lines|
  {
    if |lines| > 0 {
      var init := lines[..|lines| - 1];
      var f := classify(lines[|lines| - 1]);
      NoDeltasIffNoTextDeltaFor(init, classify);
      assert FrameDelta(f) == "" <==> !f.TextDelta?;
      assert forall i | 0 <= i < |init| :: init[i] == lines[i];
    }
  }

  /** Under the hook's classifier, lines carry no text at all exactly when
      none of them is a text delta: every real delta is non-empty. */
  lemma NoDeltasIffNoTextDelta(lines: seq<string>, parse: Parser)
    ensures Deltas(lines, LineClassifier(parse)) == "" <==>
              forall i | 0 <= i < |lines| :: !Classify(lines[i], parse).TextDelta?
  {
    HookDeltasNonEmpty(parse);
    NoDeltasIffNoTextDeltaFor(lines, LineClassifier(parse));
    assert forall i | 0 <= i < |lines| :: LineClassifier(parse)(lines[i]) == Classify(lines[i], parse);
  }

  /** Whitespace between the prefix and the payload, or after the payload,
      never changes how a line is classified. */
  lemma PayloadPaddingIrrelevant(w1: string, p: string, w2: string, parse: Parser)
    requires AllWhitespace(w1) && AllWhitespace(w2)
    ensures Classify(DataPrefix + (w1 + p + w2), parse) == Classify(DataPrefix + p, parse)
  {
    ClassifyDataLine(w1 + p + w2, parse);
    ClassifyDataLine(p, parse);
    TrimPadded(w1, p, w2);
  }

  /** A data line is classified by its trimmed payload alone. */
  lemma ClassifyDataLine(rest: string, parse: Parser)
    ensures Classify(DataPrefix + rest, parse) == ClassifyPayload(Trim(rest), parse)
  {
    var line := DataPrefix + rest;
    assert line[..|DataPrefix|] == DataPrefix;
    assert line[|DataPrefix|..] == rest;
  }

  /** The only lines that carry text are `data: ` lines whose payload parses
      to a `text-delta` record with a non-empty delta, and the text they carry
      is exactly that delta. */
  lemma DeltaCharacterization(line: string, parse: Parser)
    ensures DeltaOf(line, parse) != "" <==>
              && StartsWith(line, DataPrefix)
              && Payload(line) != DoneMarker
              && parse(Payload(line)).Some?
              && parse(Payload(line)).value.kind == Some(TextDeltaType)
              && parse(Payload(line)).value.delta != ""
    ensures DeltaOf(line, parse) != "" ==> DeltaOf(line, parse) == parse(Payload(line)).value.delta
  {
  }
}
