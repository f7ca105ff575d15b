/**
 * The chat route: it turns the posted conversation into an upstream request,
 * then re-frames the upstream chunks as an event stream that ends with one
 * token-usage event and the `[DONE]` sentinel.
 */
module Relay {
  import opened Wrappers
  import opened ChatTypes
  import opened Json
  import opened Wire
  import opened Seqs

  /** Usage counters an upstream chunk may carry; either count may be absent. */
  datatype UsageMetadata = UsageMetadata(promptTokenCount: Option<nat>, candidatesTokenCount: Option<nat>)

  /** One upstream chunk: its text (possibly empty) and optional usage counters. */
  datatype Chunk = Chunk(text: string, usageMetadata: Option<UsageMetadata>)

  /** One history entry as the upstream takes it: a role and a single text part. */
  datatype Content = Content(role: string, text: string)

  /** What the relay hands the upstream: the history and the new turn. */
  datatype UpstreamRequest = UpstreamRequest(history: seq<Content>, newTurn: string)

  /**
   * How the upstream answers the request: it refuses before streaming
   * (its error message), or yields chunks and then either ends or throws.
   */
  datatype Upstream = Refuses(message: string) | Streams(chunks: seq<Chunk>, fails: bool)

  /** The request body as the relay reads it. */
  datatype RequestBody =
    | Unreadable(message: string)                   // the body is not JSON, or cannot be destructured
    | Parsed(messages: Option<seq<PostedMessage>>)  // None: the body has no `messages` field

  datatype RelayResponse =
    | ErrorResponse(status: nat, body: string)       // non-streaming JSON `{error}`
    | EventStream(frames: seq<string>, errored: bool) // the frames enqueued; errored: the stream was errored, not closed

  const DefaultError := "An error occurred"
  /** The TypeError messages the JavaScript engine (V8) gives for the two malformed lists. */
  const MissingListError := "Cannot read properties of undefined (reading 'length')"
  const EmptyListError := "Cannot read properties of undefined (reading 'content')"

  /** The JSON body of the failure response. */
  function ErrorBody(message: string): string
  {
    ErrorOpen + Quote(if message != [] then message else DefaultError) + ErrorClose
  }

  const ErrorOpen := "{\"error\":"
  const ErrorClose := "}"


  lemma ErrorDelimitersPrintable()
    ensures Printable(ErrorOpen) && Printable(ErrorClose)
  {
  }

  /** The failure body is a single line of JSON. */
  lemma ErrorBodyPrintable(message: string)
    ensures Printable(ErrorBody(message))
  {
    var m := if message != [] then message else DefaultError;
    ErrorDelimitersPrintable();
    QuotePrintable(m);
    PrintableAppend(ErrorOpen, Quote(m));
    PrintableAppend(ErrorOpen + Quote(m), ErrorClose);
  }

  function UpstreamRole(role: string): string
  {
    if role == "assistant" then "model" else "user"
  }

  /**
   * The history (every posted message but the last, in order, with its role
   * renamed) and the new turn (the last message's content). An empty list
   * has no last message: the source throws there.
   */
  function Translate(messages: seq<PostedMessage>): (r: Option<UpstreamRequest>)
    ensures r.Some? <==> messages != []
    ensures r.Some? ==>
      && |r.value.history| == |messages| - 1
      && (forall i :: 0 <= i < |r.value.history| ==>
            r.value.history[i] == Content(UpstreamRole(messages[i].role), messages[i].content))
      && r.value.newTurn == messages[|messages| - 1].content
  {
    if messages == [] then None
    else
      var history := seq(|messages| - 1, i requires 0 <= i < |messages| - 1 =>
                           Content(UpstreamRole(messages[i].role), messages[i].content));
      Some(UpstreamRequest(history, messages[|messages| - 1].content))
  }

  /** The role the client would have posted for an upstream role. */
  function ClientRole(role: string): string
  {
    if role == "model" then "assistant" else "user"
  }

  /** Rebuilds the posted list from the upstream request. */
  function Untranslate(r: UpstreamRequest): seq<PostedMessage>
  {
    seq(|r.history|, i requires 0 <= i < |r.history| => PostedMessage(ClientRole(r.history[i].role), r.history[i].text))
    + [PostedMessage("user", r.newTurn)]
  }

  /**
   * Nothing is lost in translation for the lists the client posts: only
   * "user" and "assistant" roles, the last one "user".
   */
  lemma UntranslateTranslate(messages: seq<PostedMessage>)
    requires messages != [] && messages[|messages| - 1].role == "user"
    requires forall i :: 0 <= i < |messages| ==> messages[i].role in {"user", "assistant"}
    ensures Untranslate(Translate(messages).value) == messages
  {
    var u := Untranslate(Translate(messages).value);
    assert |u| == |messages|;
    forall i | 0 <= i < |messages|
      ensures u[i] == messages[i]
    {
      if i < |messages| - 1 {
        assert messages[i].role == "user" || messages[i].role == "assistant";
      }
    }
  }

  function OrZero(n: Option<nat>): nat
  {
    match n
    case Some(v) => v
    case None => 0
  }

  /** A chunk carrying usage metadata overwrites both counters; an absent count reads as 0. */
  function Update(counters: (nat, nat), chunk: Chunk): (nat, nat)
  {
    match chunk.usageMetadata
    case None => counters
    case Some(u) => (OrZero(u.promptTokenCount), OrZero(u.candidatesTokenCount))
  }

  /** The prompt and completion counters after the chunks, starting from zero. */
  function Counters(chunks: seq<Chunk>): (nat, nat)
  {
    if chunks == [] then (0, 0) else Update(Counters(chunks[..|chunks| - 1]), chunks[|chunks| - 1])
  }

  /** The counters are those of the last chunk that carried usage metadata. */
  lemma {:induction false} CountersAreLatest(chunks: seq<Chunk>, k: nat)
    requires k < |chunks| && chunks[k].usageMetadata.Some?
    requires forall j :: k < j < |chunks| ==> chunks[j].usageMetadata.None?
    ensures Counters(chunks) == (OrZero(chunks[k].usageMetadata.value.promptTokenCount),
                                 OrZero(chunks[k].usageMetadata.value.candidatesTokenCount))
    decreases |chunks|
  {
    if k < |chunks| - 1 {
      CountersAreLatest(chunks[..|chunks| - 1], k);
    }
  }

  /** Without any usage metadata the counters stay at zero. */
  lemma {:induction false} CountersWithoutUsage(chunks: seq<Chunk>)
    requires forall j :: 0 <= j < |chunks| ==> chunks[j].usageMetadata.None?
    ensures Counters(chunks) == (0, 0)
    decreases |chunks|
  {
    if chunks != [] {
      CountersWithoutUsage(chunks[..|chunks| - 1]);
    }
  }

  /** The usage summary sent at the end: the total is the sum of the two counters. */
  function FinalUsage(chunks: seq<Chunk>): (u: TokenUsage)
    ensures u.totalTokens == u.promptTokens + u.completionTokens
    ensures (u.promptTokens, u.completionTokens) == Counters(chunks)
  {
    var (p, c) := Counters(chunks);
    TokenUsage(p, c, p + c)
  }

  /** One delta frame per chunk, in order. */
  function DeltaFrames(chunks: seq<Chunk>): (frames: seq<string>)
    ensures |frames| == |chunks|
    ensures forall i :: 0 <= i < |chunks| ==> frames[i] == DeltaFrame(chunks[i].text)
  {
    seq(|chunks|, i requires 0 <= i < |chunks| => DeltaFrame(chunks[i].text))
  }

  /** Everything the relay enqueues for the chunks, ending normally or not. */
  function EmittedFrames(chunks: seq<Chunk>, fails: bool): seq<string>
  {
    DeltaFrames(chunks) + (if fails then [] else [UsageFrame(FinalUsage(chunks)), DoneFrame])
  }

  lemma CountersSnoc(chunks: seq<Chunk>, i: nat)
    requires i < |chunks|
    ensures Counters(chunks[..i + 1]) == Update(Counters(chunks[..i]), chunks[i])
  {
    assert chunks[..i + 1][..i] == chunks[..i];
  }

  /** The emitted frames, position by position. */
  lemma EmittedFramesParts(chunks: seq<Chunk>, fails: bool)
    ensures fails ==> EmittedFrames(chunks, fails) == DeltaFrames(chunks)
    ensures !fails ==> EmittedFrames(chunks, fails) == DeltaFrames(chunks) + [UsageFrame(FinalUsage(chunks))] + [DoneFrame]
  {
  }

  lemma EmittedFramesShape(chunks: seq<Chunk>, fails: bool)
    ensures |EmittedFrames(chunks, fails)| == |chunks| + (if fails then 0 else 2)
    ensures forall i :: 0 <= i < |chunks| ==> EmittedFrames(chunks, fails)[i] == DeltaFrame(chunks[i].text)
    ensures !fails ==> EmittedFrames(chunks, fails)[|chunks|] == UsageFrame(FinalUsage(chunks))
                       && EmittedFrames(chunks, fails)[|chunks| + 1] == DoneFrame
  {
  }

  /**
   * The stream's start: one delta frame per chunk, even an empty one, in
   * upstream order; then, unless the upstream throws, one usage frame and the
   * sentinel. When the upstream throws the stream is errored instead.
   */
  method Stream(chunks: seq<Chunk>, fails: bool) returns (frames: seq<string>, errored: bool)
    ensures errored == fails
    ensures |frames| == |chunks| + (if fails then 0 else 2)
    ensures forall i :: 0 <= i < |chunks| ==> frames[i] == DeltaFrame(chunks[i].text)
    ensures !fails ==> frames[|chunks|] == UsageFrame(FinalUsage(chunks)) && frames[|chunks| + 1] == DoneFrame
    ensures frames == EmittedFrames(chunks, fails)
  {
    var promptTokens, completionTokens := 0, 0;
    frames := [];
    var i := 0;
    while i < |chunks|
      invariant 0 <= i <= |chunks|
      invariant (promptTokens, completionTokens) == Counters(chunks[..i])
      invariant frames == DeltaFrames(chunks)[..i]
    {
      var chunk := chunks[i];
      CountersSnoc(chunks, i);
      PrefixSnoc(DeltaFrames(chunks), i);
      if chunk.usageMetadata.Some? {
        promptTokens := OrZero(chunk.usageMetadata.value.promptTokenCount);
        completionTokens := OrZero(chunk.usageMetadata.value.candidatesTokenCount);
      }
      frames := frames + [DeltaFrame(chunk.text)];
      i := i + 1;
    }
    assert chunks[..i] == chunks;
    assert DeltaFrames(chunks)[..i] == DeltaFrames(chunks);
    EmittedFramesParts(chunks, fails);
    EmittedFramesShape(chunks, fails);
    if fails {
      errored := true;
      return;
    }
    var totalTokens := promptTokens + completionTokens;
    assert TokenUsage(promptTokens, completionTokens, totalTokens) == FinalUsage(chunks);
    frames := frames + [UsageFrame(TokenUsage(promptTokens, completionTokens, totalTokens))];
    frames := frames + [DoneFrame];
    errored := false;
  }

  /**
   * The route. A body that cannot be read, a missing list, an empty list or
   * an upstream that refuses give a status-500 JSON error and no stream;
   * otherwise the response is the event stream of the upstream's chunks.
   * `sent` is what reached the upstream.
   */
  method Post(body: RequestBody, upstream: Upstream) returns (sent: Option<UpstreamRequest>, response: RelayResponse)
    ensures sent.Some? <==> body.Parsed? && body.messages.Some? && body.messages.value != []
    ensures sent.Some? ==> sent == Translate(body.messages.value)
    ensures body.Unreadable? ==> response == ErrorResponse(500, ErrorBody(body.message))
    ensures body.Parsed? && body.messages.None? ==> response == ErrorResponse(500, ErrorBody(MissingListError))
    ensures body.Parsed? && body.messages == Some([]) ==> response == ErrorResponse(500, ErrorBody(EmptyListError))
    ensures sent.Some? && upstream.Refuses? ==> response == ErrorResponse(500, ErrorBody(upstream.message))
    ensures sent.Some? && upstream.Streams? ==>
      response == EventStream(EmittedFrames(upstream.chunks, upstream.fails), upstream.fails)
  {
    sent := None;
    if body.Unreadable? {
      response := ErrorResponse(500, ErrorBody(body.message));
    } else if body.messages.None? {
      response := ErrorResponse(500, ErrorBody(MissingListError));
    } else {
      sent := Translate(body.messages.value);
      if sent.None? {
        response := ErrorResponse(500, ErrorBody(EmptyListError));
      } else if upstream.Refuses? {
        response := ErrorResponse(500, ErrorBody(upstream.message));
      } else {
        var frames, errored := Stream(upstream.chunks, upstream.fails);
        response := EventStream(frames, errored);
      }
    }
  }

}
