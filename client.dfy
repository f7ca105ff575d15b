/**
 * The chat component's send handler: it posts the conversation, reads the
 * event stream read by read, appends each non-empty delta to the assistant
 * message, keeps the last usage summary, stops at `[DONE]`, and commits
 * the user message and the reply (or the apology text) in one update.
 */
module Client {
  import opened Wrappers
  import opened ChatTypes
  import opened TextLines
  import opened Wire

  const ApologyText := "Sorry, I encountered an error. Please try again."

  /** The assistant message being built, and whether `[DONE]` was seen. */
  datatype Draft = Draft(content: string, tokenUsage: Option<TokenUsage>, sawDone: bool)

  const EmptyDraft := Draft([], None, false)

  /** How the reader's last read settles: the stream closed, or the read rejected. */
  datatype ReadEnd = Closed | Rejected

  /** What fetch gives the client: a failure, a response without a body, or the body's reads. */
  datatype Response = FetchFailed | NoBody | Body(received: seq<string>, end: ReadEnd)

  /** A parsed payload's effect: truthy delta content is appended, a usage summary replaces the last one. */
  function Accept(d: Draft, parsed: Option<Payload>): Draft
  {
    match parsed
    case Some(Delta(c)) => if c != [] then d.(content := d.content + c) else d
    case Some(Usage(u)) => d.(tokenUsage := Some(u))
    case None => d
  }

  /** One non-blank line: only `data: ` lines count; `[DONE]` stops; other payloads are parsed. */
  function StepLine(d: Draft, line: string): Draft
  {
    if DataPrefix <= line then
      var data := line[|DataPrefix|..];
      if data == DoneSentinel then d.(sawDone := true) else Accept(d, Decode(data))
    else d
  }

  /** The lines of one read, in order, up to `[DONE]`. */
  function DecodeLines(d: Draft, lines: seq<string>): Draft
    decreases |lines|
  {
    if lines == [] || d.sawDone then d else DecodeLines(StepLine(d, lines[0]), lines[1..])
  }

  /** The reads, in order, up to `[DONE]`; each read is split on its own. */
  function DecodeReads(d: Draft, received: seq<string>): Draft
    decreases |received|
  {
    if received == [] || d.sawDone then d else DecodeReads(DecodeLines(d, Lines(received[0])), received[1..])
  }

  lemma DecodeLinesStep(d: Draft, lines: seq<string>, j: nat)
    requires j < |lines| && !d.sawDone
    ensures DecodeLines(d, lines[j..]) == DecodeLines(StepLine(d, lines[j]), lines[j + 1..])
  {
    assert lines[j..][1..] == lines[j + 1..];
  }

  lemma DecodeReadsStep(d: Draft, received: seq<string>, i: nat)
    requires i < |received| && !d.sawDone
    ensures DecodeReads(d, received[i..]) == DecodeReads(DecodeLines(d, Lines(received[i])), received[i + 1..])
  {
    assert received[i..][1..] == received[i + 1..];
  }

  function Apology(id: string): Message
  {
    Message(id, Assistant, ApologyText, None)
  }

  /**
   * The assistant message committed for a response. A failed fetch, a missing
   * body, or a rejected read before `[DONE]` give the apology; otherwise the
   * reply carries what was decoded. The status code is never looked at.
   */
  function Reply(response: Response, id: string): Message
  {
    match response
    case Body(received, end) =>
      var d := DecodeReads(EmptyDraft, received);
      if !d.sawDone && end == Rejected then Apology(id) else Message(id, Assistant, d.content, d.tokenUsage)
    case _ => Apology(id)
  }

  /** The request body: each message reduced to its role and content, in order. */
  function Posted(messages: seq<Message>): (r: seq<PostedMessage>)
    ensures |r| == |messages|
    ensures forall i :: 0 <= i < |r| ==> r[i] == PostedMessage(RoleName(messages[i].role), messages[i].content)
  {
    seq(|messages|, i requires 0 <= i < |messages| => PostedMessage(RoleName(messages[i].role), messages[i].content))
  }

  /** Each displayed content is a non-empty proper prefix of the next; the last is the content itself. */
  ghost predicate Growing(shown: seq<string>, content: string)
  {
    && (forall k :: 0 <= k < |shown| ==> shown[k] != [] && shown[k] <= content)
    && (forall k :: 0 < k < |shown| ==> shown[k - 1] < shown[k])
    && (if shown == [] then content == [] else shown[|shown| - 1] == content)
  }

  /** Displaying the content after a non-empty append keeps the displayed contents growing. */
  lemma GrowingAppend(shown: seq<string>, content: string, c: string)
    requires Growing(shown, content) && c != []
    ensures Growing(shown + [content + c], content + c)
  {
    var next := shown + [content + c];
    assert content < content + c;
    forall k | 0 <= k < |next|
      ensures next[k] != [] && next[k] <= content + c
    {
      if k < |shown| {
        assert next[k] == shown[k] && shown[k] <= content;
      }
    }
    forall k | 0 < k < |next|
      ensures next[k - 1] < next[k]
    {
      if k < |shown| {
        assert next[k - 1] == shown[k - 1] && next[k] == shown[k];
      } else if shown != [] {
        assert next[k - 1] == content;
      }
    }
  }

  /**
   * One line of a read: `[DONE]` marks the end, a non-empty delta is appended
   * and displayed, a usage summary is kept; anything else changes nothing.
   */
  method ReadLine(before: Draft, line: string, shownBefore: seq<string>) returns (draft: Draft, shown: seq<string>)
    requires !before.sawDone && Growing(shownBefore, before.content)
    ensures draft == StepLine(before, line)
    ensures Growing(shown, draft.content)
  {
    draft, shown := before, shownBefore;
    if DataPrefix <= line {
      var data := line[|DataPrefix|..];
      if data == DoneSentinel {
        draft := draft.(sawDone := true);
        return;
      }
      var parsed := Decode(data);
      if parsed.Some? && parsed.value.Delta? && parsed.value.content != [] {
        GrowingAppend(shown, draft.content, parsed.value.content);
        draft := draft.(content := draft.content + parsed.value.content);
        shown := shown + [draft.content];
      }
      if parsed.Some? && parsed.value.Usage? {
        draft := draft.(tokenUsage := Some(parsed.value.usage));
      }
    }
  }

  /**
   * The lines of one read (the inner `for` loop): stops at `[DONE]`.
   * `shown` grows by the content displayed after each append.
   */
  method ReadLines(start: Draft, lines: seq<string>, shownBefore: seq<string>) returns (draft: Draft, shown: seq<string>)
    requires !start.sawDone && Growing(shownBefore, start.content)
    ensures draft == DecodeLines(start, lines)
    ensures Growing(shown, draft.content)
  {
    draft, shown := start, shownBefore;
    var j := 0;
    while j < |lines|
      invariant 0 <= j <= |lines|
      invariant !draft.sawDone
      invariant DecodeLines(draft, lines[j..]) == DecodeLines(start, lines)
      invariant Growing(shown, draft.content)
    {
      DecodeLinesStep(draft, lines, j);
      draft, shown := ReadLine(draft, lines[j], shown);
      if draft.sawDone {
        break;
      }
      j := j + 1;
    }
  }

  /**
   * The read loop (`while (!done)`). `shown` is the content displayed after
   * each append. The draft is what the reads decode to; the loop ends in a
   * rejection only when the stream failed before `[DONE]`.
   */
  method ReadEventStream(received: seq<string>, end: ReadEnd) returns (draft: Draft, rejected: bool, shown: seq<string>)
    ensures draft == DecodeReads(EmptyDraft, received)
    ensures rejected <==> !draft.sawDone && end == Rejected
    ensures forall k :: 0 <= k < |shown| ==> shown[k] != [] && shown[k] <= draft.content
    ensures forall k :: 0 < k < |shown| ==> shown[k - 1] < shown[k]
    ensures if shown == [] then draft.content == [] else shown[|shown| - 1] == draft.content
  {
    draft, rejected, shown := EmptyDraft, false, [];
    var done := false;
    var i := 0;
    while !done
      invariant 0 <= i <= |received|
      invariant DecodeReads(draft, received[i..]) == DecodeReads(EmptyDraft, received)
      invariant !done ==> !draft.sawDone
      invariant done ==> draft.sawDone || (i == |received| && end == Closed)
      invariant Growing(shown, draft.content)
      decreases |received| - i, if done then 0 else 1
    {
      if i == |received| {
        // the next read settles: done, or a rejection when the stream was errored
        if end == Rejected {
          rejected := true;
          return;
        }
        done := true;
      } else {
        DecodeReadsStep(draft, received, i);
        draft, shown := ReadLines(draft, Lines(received[i]), shown);
        done := draft.sawDone;
        i := i + 1;
      }
    }
  }

  /**
   * The `try`/`catch` around the fetch and the read loop: the reply to commit,
   * and the assistant content displayed while it streamed.
   */
  method Receive(response: Response, assistantId: string) returns (reply: Message, shown: seq<string>)
    ensures reply == Reply(response, assistantId)
    ensures response.Body? ==>
      forall k :: 0 <= k < |shown| ==> shown[k] <= DecodeReads(EmptyDraft, response.received).content
    ensures !response.Body? ==> shown == []
  {
    shown := [];
    match response {
      case FetchFailed =>
        reply := Apology(assistantId);
      case NoBody =>
        reply := Apology(assistantId);
      case Body(received, end) =>
        var draft, rejected;
        draft, rejected, shown := ReadEventStream(received, end);
        if rejected {
          reply := Apology(assistantId);
        } else {
          reply := Message(assistantId, Assistant, draft.content, draft.tokenUsage);
        }
    }
  }

  /** The chat component's state: the messages it shows and its loading flag. */
  class ChatInterface {
    var messages: seq<Message>
    var isLoading: bool

    constructor (conversation: Conversation)
      ensures messages == conversation.messages && !isLoading
    {
      messages := conversation.messages;
      isLoading := false;
    }

    /**
     * Sends `content`. Blank text, or a turn still loading, changes nothing.
     * Otherwise the trimmed text is appended as a user message, the whole list
     * is posted, and exactly the user message and the reply are committed.
     * `committed` is the list handed to the conversation's update;
     * `shown` is the assistant content displayed while the reply streamed.
     */
    method HandleSendMessage(content: string, userId: string, assistantId: string, response: Response)
      returns (posted: Option<seq<PostedMessage>>, committed: Option<seq<Message>>, shown: seq<string>)
      modifies this
      ensures Trim(content) == [] || old(isLoading) ==>
        posted == None && committed == None && shown == []
        && messages == old(messages) && isLoading == old(isLoading)
      ensures Trim(content) != [] && !old(isLoading) ==>
        var sent := old(messages) + [Message(userId, User, Trim(content), None)];
        && posted == Some(Posted(sent))
        && committed == Some(sent + [Reply(response, assistantId)])
        && messages == committed.value
        && !isLoading
      ensures response.Body? ==>
        forall k :: 0 <= k < |shown| ==> shown[k] <= DecodeReads(EmptyDraft, response.received).content
    {
      var text := Trim(content);
      if text == [] || isLoading {
        return None, None, [];
      }
      var userMessage := Message(userId, User, text, None);
      var newMessages := messages + [userMessage];
      messages := newMessages;
      isLoading := true;
      posted := Some(Posted(newMessages));
      var reply;
      reply, shown := Receive(response, assistantId);
      var finalMessages := newMessages + [reply];
      messages := finalMessages;
      committed := Some(finalMessages);
      isLoading := false;
    }
  }
}

/** What the decoder promises, independent of how the relay behaves. */
module ClientProperties {
  import opened Wrappers
  import opened ChatTypes
  import opened TextLines
  import opened Wire
  import opened Client

  /** Processing lines in two batches is processing them in one. */
  lemma {:induction false} DecodeLinesAppend(d: Draft, a: seq<string>, b: seq<string>)
    ensures DecodeLines(d, a + b) == DecodeLines(DecodeLines(d, a), b)
    decreases |a|
  {
    if a == [] {
      assert a + b == b;
    } else if d.sawDone {
      DoneDraftIsFinal(d, b);
    } else {
      assert (a + b)[1..] == a[1..] + b;
      DecodeLinesAppend(StepLine(d, a[0]), a[1..], b);
    }
  }

  lemma DoneDraftIsFinal(d: Draft, lines: seq<string>)
    requires d.sawDone
    ensures DecodeLines(d, lines) == d
  {
  }

  /**
   * Read boundaries matter only through the lines they cut: decoding the reads
   * is decoding all their lines in one go.
   */
  lemma {:induction false} DecodeReadsAsLines(d: Draft, received: seq<string>)
    ensures DecodeReads(d, received) == DecodeLines(d, AllLines(received))
    decreases |received|
  {
    if received == [] {
    } else if d.sawDone {
      DoneDraftIsFinal(d, AllLines(received));
    } else {
      DecodeLinesAppend(d, Lines(received[0]), AllLines(received[1..]));
      DecodeReadsAsLines(DecodeLines(d, Lines(received[0])), received[1..]);
    }
  }

  /** `[DONE]` stops everything: later lines of the same read change nothing. */
  lemma DoneIgnoresLaterLines(d: Draft, before: seq<string>, after: seq<string>)
    requires !DecodeLines(d, before).sawDone
    ensures DecodeLines(d, before + [DataPrefix + DoneSentinel] + after)
         == DecodeLines(d, before).(sawDone := true)
  {
    var mid := DecodeLines(d, before);
    DecodeLinesAppend(d, before + [DataPrefix + DoneSentinel], after);
    DecodeLinesAppend(d, before, [DataPrefix + DoneSentinel]);
    assert (DataPrefix + DoneSentinel)[|DataPrefix|..] == DoneSentinel;
    assert DecodeLines(mid, [DataPrefix + DoneSentinel]) == mid.(sawDone := true);
  }

  /** Once `[DONE]` is seen, later reads change nothing, however many there are. */
  lemma {:induction false} DoneIgnoresLaterReads(d: Draft, first: seq<string>, later: seq<string>)
    requires DecodeReads(d, first).sawDone
    ensures DecodeReads(d, first + later) == DecodeReads(d, first)
    decreases |first|
  {
    if first == [] {
    } else if !d.sawDone {
      assert (first + later)[1..] == first[1..] + later;
      DoneIgnoresLaterReads(DecodeLines(d, Lines(first[0])), first[1..], later);
    }
  }

  /** A line the decoder has no use for: not a `data: ` line, or a payload that does not parse. */
  predicate Ignored(line: string)
  {
    !(DataPrefix <= line) || (line[|DataPrefix|..] != DoneSentinel && Decode(line[|DataPrefix|..]) == None)
  }

  /** Ignored lines, malformed JSON included, are skipped and the lines after them still count. */
  lemma {:induction false} IgnoredLinesSkipped(d: Draft, ignored: seq<string>, rest: seq<string>)
    requires forall k :: 0 <= k < |ignored| ==> Ignored(ignored[k])
    ensures DecodeLines(d, ignored + rest) == DecodeLines(d, rest)
    decreases |ignored|
  {
    if ignored == [] {
      assert ignored + rest == rest;
    } else if !d.sawDone {
      assert StepLine(d, ignored[0]) == d;
      assert (ignored + rest)[1..] == ignored[1..] + rest;
      IgnoredLinesSkipped(d, ignored[1..], rest);
    }
  }

  /** Content is only ever appended to: what was displayed stays a prefix of what follows. */
  lemma {:induction false} ContentOnlyGrows(d: Draft, lines: seq<string>)
    ensures d.content <= DecodeLines(d, lines).content
    decreases |lines|
  {
    if lines != [] && !d.sawDone {
      var next := StepLine(d, lines[0]);
      assert d.content <= next.content;
      ContentOnlyGrows(next, lines[1..]);
    }
  }

  /** A line that carries no usage summary: not a `data: ` line, or a payload that is not a usage summary. */
  predicate NoUsagePayload(line: string)
  {
    DataPrefix <= line ==>
      var parsed := Decode(line[|DataPrefix|..]);
      parsed.Some? ==> !parsed.value.Usage?
  }

  /** Only a usage payload touches the usage: every other line leaves it as it was. */
  lemma {:induction false} UsageSurvives(d: Draft, lines: seq<string>)
    requires forall k :: 0 <= k < |lines| ==> NoUsagePayload(lines[k])
    ensures DecodeLines(d, lines).tokenUsage == d.tokenUsage
    decreases |lines|
  {
    if lines != [] && !d.sawDone {
      assert StepLine(d, lines[0]).tokenUsage == d.tokenUsage by {
        assert NoUsagePayload(lines[0]);
      }
      UsageSurvives(StepLine(d, lines[0]), lines[1..]);
    }
  }

  /** The same across reads: reads with no usage payload leave the usage as it was. */
  lemma UsageSurvivesReads(d: Draft, received: seq<string>)
    requires forall k :: 0 <= k < |AllLines(received)| ==> NoUsagePayload(AllLines(received)[k])
    ensures DecodeReads(d, received).tokenUsage == d.tokenUsage
  {
    DecodeReadsAsLines(d, received);
    UsageSurvives(d, AllLines(received));
  }

  /**
   * The usage kept is the one of the last usage payload: whatever follows it
   * that is not a usage payload, in the same read or in later reads, leaves it alone.
   */
  lemma LastUsageWins(d: Draft, u: TokenUsage, later: seq<string>)
    requires !d.sawDone
    requires forall k :: 0 <= k < |later| ==> NoUsagePayload(later[k])
    ensures DecodeLines(d, [DataPrefix + Encode(Usage(u))] + later).tokenUsage == Some(u)
  {
    var line := DataPrefix + Encode(Usage(u));
    assert line[|DataPrefix|..] == Encode(Usage(u));
    assert Encode(Usage(u))[0] != DoneSentinel[0];
    DecodeEncode(Usage(u));
    assert StepLine(d, line) == d.(tokenUsage := Some(u));
    assert ([line] + later)[1..] == later;
    UsageSurvives(d.(tokenUsage := Some(u)), later);
  }

  function DataLinesOf(deltas: seq<string>): seq<string>
  {
    seq(|deltas|, i requires 0 <= i < |deltas| => DataPrefix + Encode(Delta(deltas[i])))
  }

  lemma {:induction false} DeltaLinesKeepUsage(d: Draft, deltas: seq<string>)
    requires !d.sawDone
    ensures DecodeLines(d, DataLinesOf(deltas)).tokenUsage == d.tokenUsage
    decreases |deltas|
  {
    if deltas != [] {
      var line := DataPrefix + Encode(Delta(deltas[0]));
      assert line[|DataPrefix|..] == Encode(Delta(deltas[0]));
      assert Encode(Delta(deltas[0]))[0] != DoneSentinel[0];
      DecodeEncode(Delta(deltas[0]));
      assert DataLinesOf(deltas)[1..] == DataLinesOf(deltas[1..]);
      DeltaLinesKeepUsage(StepLine(d, line), deltas[1..]);
    }
  }
}
