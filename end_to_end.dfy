/**
 * The relay and the client together: when every event the relay writes
 * arrives whole inside one read, the client's reply is the concatenated
 * chunk texts with the relay's final counters.
 */
module EndToEnd {
  import opened Wrappers
  import opened Seqs
  import opened ChatTypes
  import opened Json
  import opened TextLines
  import opened Wire
  import opened Relay
  import opened Client
  import opened ClientProperties

  function Frames(payloads: seq<string>): seq<string>
  {
    seq(|payloads|, i requires 0 <= i < |payloads| => Frame(payloads[i]))
  }

  function DataLines(payloads: seq<string>): seq<string>
  {
    seq(|payloads|, i requires 0 <= i < |payloads| => DataPrefix + payloads[i])
  }

  lemma DataLinesSplit(payloads: seq<string>, n: nat)
    requires n <= |payloads|
    ensures DataLines(payloads) == DataLines(payloads[..n]) + DataLines(payloads[n..])
  {
    var a, b := DataLines(payloads), DataLines(payloads[..n]) + DataLines(payloads[n..]);
    assert |a| == |b|;
    forall i | 0 <= i < |a|
      ensures a[i] == b[i]
    {
      if i < n {
        assert b[i] == DataLines(payloads[..n])[i];
      } else {
        assert b[i] == DataLines(payloads[n..])[i - n];
      }
    }
  }

  lemma FramesSplit(payloads: seq<string>, n: nat)
    requires n <= |payloads|
    ensures Frames(payloads)[..n] == Frames(payloads[..n])
    ensures Frames(payloads)[n..] == Frames(payloads[n..])
  {
    var f := Frames(payloads);
    assert |f[..n]| == |Frames(payloads[..n])|;
    forall i | 0 <= i < n
      ensures f[..n][i] == Frames(payloads[..n])[i]
    {
    }
    assert |f[n..]| == |Frames(payloads[n..])|;
    forall i | 0 <= i < |payloads| - n
      ensures f[n..][i] == Frames(payloads[n..])[i]
    {
    }
  }

  /** The reads, when the k-th read carries the frames of the k-th group. */
  function Joined(groups: seq<seq<string>>): seq<string>
  {
    seq(|groups|, i requires 0 <= i < |groups| => Flatten(groups[i]))
  }

  /** The text the client should end with: every chunk's text, in order. */
  function Texts(chunks: seq<Chunk>): string
  {
    if chunks == [] then [] else chunks[0].text + Texts(chunks[1..])
  }

  function DeltaPayloads(chunks: seq<Chunk>): seq<string>
  {
    seq(|chunks|, i requires 0 <= i < |chunks| => Encode(Delta(chunks[i].text)))
  }

  /** The payloads the relay writes on normal completion. */
  function RelayPayloads(chunks: seq<Chunk>): seq<string>
  {
    DeltaPayloads(chunks) + [Encode(Usage(FinalUsage(chunks))), DoneSentinel]
  }

  predicate OneLine(payloads: seq<string>)
  {
    forall i :: 0 <= i < |payloads| ==> '\n' !in payloads[i]
  }

  lemma EncodedIsOneLine(p: Payload)
    ensures '\n' !in Encode(p)
  {
    EncodePrintable(p);
  }

  lemma RelayPayloadsAreOneLine(chunks: seq<Chunk>)
    ensures OneLine(RelayPayloads(chunks))
  {
    var ps := RelayPayloads(chunks);
    forall i | 0 <= i < |ps|
      ensures '\n' !in ps[i]
    {
      if i < |chunks| {
        EncodedIsOneLine(Delta(chunks[i].text));
      } else if i == |chunks| {
        EncodedIsOneLine(Usage(FinalUsage(chunks)));
      }
    }
  }

  lemma EmittedFramesArePayloadFrames(chunks: seq<Chunk>)
    ensures EmittedFrames(chunks, false) == Frames(RelayPayloads(chunks))
  {
  }

  /** A `data: ` line is never blank: it starts with 'd'. */
  lemma DataLineIsNotBlank(payload: string)
    ensures Trim(DataPrefix + payload) != []
  {
    TrimEmptyIffBlank(DataPrefix + payload);
    assert (DataPrefix + payload)[0] == 'd';
  }

  lemma NonBlankSingle(piece: string)
    ensures NonBlank([piece]) == if Trim(piece) != [] then [piece] else []
  {
    assert [piece][1..] == [];
  }

  lemma LinesOfNoFrames(payloads: seq<string>)
    requires payloads == []
    ensures Lines(Flatten(Frames(payloads))) == DataLines(payloads)
  {
    assert Frames(payloads) == [];
    assert Split([]) == [[]];
    assert Trim([]) == [];
  }

  lemma FirstFrame(payloads: seq<string>)
    requires payloads != []
    ensures Flatten(Frames(payloads)) == DataPrefix + payloads[0] + "\n\n" + Flatten(Frames(payloads[1..]))
  {
    FramesSplit(payloads, 1);
  }

  /** The first frame gives its `data: ` line; the rest follow. */
  lemma LinesOfFramesStep(payloads: seq<string>)
    requires payloads != [] && '\n' !in payloads[0]
    ensures Lines(Flatten(Frames(payloads))) == [DataPrefix + payloads[0]] + Lines(Flatten(Frames(payloads[1..])))
  {
    FirstFrame(payloads);
    DataLineIsNotBlank(payloads[0]);
    LineThenBlankThen(Flatten(Frames(payloads)), DataPrefix + payloads[0], Flatten(Frames(payloads[1..])));
  }

  /** Whole frames split into exactly their `data: ` lines; the blank separators drop out. */
  lemma {:induction false} LinesOfFrames(payloads: seq<string>)
    requires OneLine(payloads)
    ensures Lines(Flatten(Frames(payloads))) == DataLines(payloads)
    decreases |payloads|
  {
    if payloads == [] {
      LinesOfNoFrames(payloads);
    } else {
      LinesOfFramesStep(payloads);
      assert OneLine(payloads[1..]);
      LinesOfFrames(payloads[1..]);
      DataLinesCons(payloads);
      assert DataLines(payloads) == [DataLines(payloads)[0]] + DataLines(payloads)[1..];
    }
  }

  /** The first read holds the first frames; the other reads hold the rest. */
  lemma FirstGroup(groups: seq<seq<string>>, payloads: seq<string>)
    requires groups != [] && Flatten(groups) == Frames(payloads)
    ensures |groups[0]| <= |payloads|
    ensures groups[0] == Frames(payloads[..|groups[0]|])
    ensures Flatten(groups[1..]) == Frames(payloads[|groups[0]|..])
  {
    var n := |groups[0]|;
    assert Flatten(groups) == groups[0] + Flatten(groups[1..]);
    assert n <= |payloads|;
    FramesSplit(payloads, n);
  }

  lemma AllLinesOfJoined(groups: seq<seq<string>>)
    requires groups != []
    ensures AllLines(Joined(groups)) == Lines(Flatten(groups[0])) + AllLines(Joined(groups[1..]))
  {
    assert Joined(groups)[1..] == Joined(groups[1..]);
  }

  /** Reads made of whole frames give the frames' `data: ` lines, in order. */
  lemma {:induction false} LinesOfWholeFrameReads(groups: seq<seq<string>>, payloads: seq<string>)
    requires OneLine(payloads)
    requires Flatten(groups) == Frames(payloads)
    ensures AllLines(Joined(groups)) == DataLines(payloads)
    decreases |groups|
  {
    if groups == [] {
      assert payloads == [] by {
        assert |Frames(payloads)| == 0;
      }
    } else {
      var n := |groups[0]|;
      FirstGroup(groups, payloads);
      assert OneLine(payloads[..n]) && OneLine(payloads[n..]);
      LinesOfFrames(payloads[..n]);
      LinesOfWholeFrameReads(groups[1..], payloads[n..]);
      AllLinesOfJoined(groups);
      DataLinesSplit(payloads, n);
    }
  }

  /** A delta line appends its text (an empty text appends nothing, as the client skips it). */
  lemma DeltaLineStep(d: Draft, t: string)
    requires !d.sawDone
    ensures StepLine(d, DataPrefix + Encode(Delta(t))) == d.(content := d.content + t)
  {
    var payload := Encode(Delta(t));
    assert (DataPrefix + payload)[|DataPrefix|..] == payload;
    assert payload[0] != DoneSentinel[0];
    DecodeEncode(Delta(t));
    assert t == [] ==> d.content + t == d.content;
  }

  lemma DataLinesCons(payloads: seq<string>)
    requires payloads != []
    ensures DataLines(payloads)[0] == DataPrefix + payloads[0]
    ensures DataLines(payloads)[1..] == DataLines(payloads[1..])
  {
    DataLinesSplit(payloads, 1);
  }

  lemma DeltaPayloadsCons(chunks: seq<Chunk>)
    requires chunks != []
    ensures DeltaPayloads(chunks)[0] == Encode(Delta(chunks[0].text))
    ensures DeltaPayloads(chunks)[1..] == DeltaPayloads(chunks[1..])
  {
    var a, b := DeltaPayloads(chunks)[1..], DeltaPayloads(chunks[1..]);
    assert |a| == |b|;
    forall k | 0 <= k < |a|
      ensures a[k] == b[k]
    {
      assert chunks[1..][k] == chunks[k + 1];
    }
  }

  lemma DeltaLinesCons(chunks: seq<Chunk>, rest: seq<string>)
    requires chunks != []
    ensures (DataLines(DeltaPayloads(chunks)) + rest)[0] == DataPrefix + Encode(Delta(chunks[0].text))
    ensures (DataLines(DeltaPayloads(chunks)) + rest)[1..] == DataLines(DeltaPayloads(chunks[1..])) + rest
  {
    var lines := DataLines(DeltaPayloads(chunks));
    DeltaPayloadsCons(chunks);
    DataLinesCons(DeltaPayloads(chunks));
    assert (lines + rest)[1..] == lines[1..] + rest;
  }

  lemma DecodeLinesCons(d: Draft, lines: seq<string>)
    requires lines != [] && !d.sawDone
    ensures DecodeLines(d, lines) == DecodeLines(StepLine(d, lines[0]), lines[1..])
  {
  }

  lemma TextsCons(d: Draft, chunks: seq<Chunk>)
    requires chunks != []
    ensures d.content + chunks[0].text + Texts(chunks[1..]) == d.content + Texts(chunks)
  {
  }

  /** The first delta line appends the first chunk's text. */
  lemma DecodeDeltaLinesStep(d: Draft, chunks: seq<Chunk>, rest: seq<string>)
    requires !d.sawDone && chunks != []
    ensures DecodeLines(d, DataLines(DeltaPayloads(chunks)) + rest)
         == DecodeLines(d.(content := d.content + chunks[0].text), DataLines(DeltaPayloads(chunks[1..])) + rest)
  {
    DeltaLinesCons(chunks, rest);
    DecodeLinesCons(d, DataLines(DeltaPayloads(chunks)) + rest);
    DeltaLineStep(d, chunks[0].text);
  }

  /** Each delta line appends its chunk's text; the sentinel is never reached among them. */
  lemma {:induction false} DecodeDeltaLines(d: Draft, chunks: seq<Chunk>, rest: seq<string>)
    requires !d.sawDone
    ensures DecodeLines(d, DataLines(DeltaPayloads(chunks)) + rest)
         == DecodeLines(d.(content := d.content + Texts(chunks)), rest)
    decreases |chunks|
  {
    if chunks == [] {
      assert DataLines(DeltaPayloads(chunks)) + rest == rest;
      assert d.content + [] == d.content;
    } else {
      var next := d.(content := d.content + chunks[0].text);
      DecodeDeltaLinesStep(d, chunks, rest);
      DecodeDeltaLines(next, chunks[1..], rest);
      TextsCons(d, chunks);
    }
  }

  lemma RelayLines(chunks: seq<Chunk>)
    ensures DataLines(RelayPayloads(chunks))
         == DataLines(DeltaPayloads(chunks))
            + [DataPrefix + Encode(Usage(FinalUsage(chunks))), DataPrefix + DoneSentinel]
  {
    var ps := RelayPayloads(chunks);
    var n := |chunks|;
    DataLinesSplit(ps, n);
    assert ps[..n] == DeltaPayloads(chunks);
    assert ps[n..] == [Encode(Usage(FinalUsage(chunks))), DoneSentinel];
  }

  /** The closing two events: the usage summary is kept, then `[DONE]` is seen. */
  lemma UsageThenDone(d: Draft, u: TokenUsage)
    requires !d.sawDone
    ensures DecodeLines(d, [DataPrefix + Encode(Usage(u)), DataPrefix + DoneSentinel])
         == d.(tokenUsage := Some(u), sawDone := true)
  {
    var usageLine := DataPrefix + Encode(Usage(u));
    var doneLine := DataPrefix + DoneSentinel;
    assert usageLine[|DataPrefix|..] == Encode(Usage(u));
    assert Encode(Usage(u))[0] != DoneSentinel[0];
    DecodeEncode(Usage(u));
    var d1 := d.(tokenUsage := Some(u));
    assert StepLine(d, usageLine) == d1;
    assert doneLine[|DataPrefix|..] == DoneSentinel;
    assert StepLine(d1, doneLine) == d1.(sawDone := true);
    assert [usageLine, doneLine][1..] == [doneLine];
    assert DecodeLines(d, [usageLine, doneLine]) == DecodeLines(d1, [doneLine]);
    assert [doneLine][1..] == [];
    assert DecodeLines(d1, [doneLine]) == DecodeLines(d1.(sawDone := true), []);
  }

  /**
   * The headline: whatever way the relay's frames are grouped into reads,
   * as long as no frame is cut, the client ends with every chunk's text
   * concatenated, the relay's final counters, and `[DONE]` seen.
   */
  lemma RelayStreamDecodes(chunks: seq<Chunk>, groups: seq<seq<string>>)
    requires Flatten(groups) == EmittedFrames(chunks, false)
    ensures DecodeReads(EmptyDraft, Joined(groups)) == Draft(Texts(chunks), Some(FinalUsage(chunks)), true)
  {
    var ps := RelayPayloads(chunks);
    EmittedFramesArePayloadFrames(chunks);
    RelayPayloadsAreOneLine(chunks);
    LinesOfWholeFrameReads(groups, ps);
    DecodeReadsAsLines(EmptyDraft, Joined(groups));
    var closing := [DataPrefix + Encode(Usage(FinalUsage(chunks))), DataPrefix + DoneSentinel];
    RelayLines(chunks);
    DecodeDeltaLines(EmptyDraft, chunks, closing);
    assert [] + Texts(chunks) == Texts(chunks);
    UsageThenDone(EmptyDraft.(content := Texts(chunks)), FinalUsage(chunks));
  }

  /** The committed reply to a normally completed relay stream. */
  lemma RelayReply(chunks: seq<Chunk>, groups: seq<seq<string>>, end: ReadEnd, id: string)
    requires Flatten(groups) == EmittedFrames(chunks, false)
    ensures Reply(Body(Joined(groups), end), id)
         == Message(id, Assistant, Texts(chunks), Some(FinalUsage(chunks)))
  {
    RelayStreamDecodes(chunks, groups);
  }

  /**
   * When the upstream throws, the relay errors the stream: whatever whole
   * frames got through, no `[DONE]` is among them, the last read rejects and
   * the client commits the apology, not the partial text.
   */
  lemma FailedRelayReply(chunks: seq<Chunk>, groups: seq<seq<string>>, id: string)
    requires Flatten(groups) <= EmittedFrames(chunks, true)
    ensures Reply(Body(Joined(groups), Rejected), id) == Apology(id)
  {
    var m := |Flatten(groups)|;
    var delivered := chunks[..m];
    assert Flatten(groups) == EmittedFrames(delivered, true);
    assert EmittedFrames(delivered, true) == Frames(DeltaPayloads(delivered));
    forall i | 0 <= i < |delivered|
      ensures '\n' !in DeltaPayloads(delivered)[i]
    {
      EncodedIsOneLine(Delta(delivered[i].text));
    }
    LinesOfWholeFrameReads(groups, DeltaPayloads(delivered));
    DecodeReadsAsLines(EmptyDraft, Joined(groups));
    assert DataLines(DeltaPayloads(delivered)) + [] == DataLines(DeltaPayloads(delivered));
    DecodeDeltaLines(EmptyDraft, delivered, []);
  }

  /**
   * What the client posts for a send is what the relay forwards: every earlier
   * message becomes history in order, assistant turns under the upstream's
   * "model" role, and the new user message's content is the new turn; the
   * relay's request gives back exactly the posted list.
   */
  lemma PostedReachesUpstream(earlier: seq<Message>, userMessage: Message)
    requires userMessage.role == User
    ensures
      var posted := Posted(earlier + [userMessage]);
      var r := Translate(posted);
      && r.Some?
      && |r.value.history| == |earlier|
      && (forall i :: 0 <= i < |earlier| ==>
            r.value.history[i] == Content(if earlier[i].role == Assistant then "model" else "user", earlier[i].content))
      && r.value.newTurn == userMessage.content
      && Untranslate(r.value) == posted
  {
    var sent := earlier + [userMessage];
    var posted := Posted(sent);
    forall i | 0 <= i < |posted|
      ensures posted[i].role in {"user", "assistant"}
    {
      assert posted[i].role == RoleName(sent[i].role);
    }
    forall i | 0 <= i < |earlier|
      ensures Translate(posted).value.history[i]
           == Content(if earlier[i].role == Assistant then "model" else "user", earlier[i].content)
    {
      assert sent[i] == earlier[i];
    }
    assert posted[|posted| - 1].role == "user" by {
      assert sent[|sent| - 1] == userMessage;
    }
    UntranslateTranslate(posted);
  }

  /** The failure body of the relay is one line, and not a `data: ` line. */
  lemma ErrorBodyIsOneIgnoredLine(message: string)
    ensures Lines(ErrorBody(message)) == [ErrorBody(message)]
    ensures Ignored(ErrorBody(message))
  {
    var body := ErrorBody(message);
    assert Split(body) == [body] by {
      ErrorBodyPrintable(message);
      assert '\n' !in body;
    }
    assert body[0] == '{';
    assert Trim(body) != [] by {
      TrimEmptyIffBlank(body);
    }
    NonBlankSingle(body);
    assert body[0] != DataPrefix[0];
  }

  /**
   * The client never looks at the status: the relay's status-500 JSON body
   * contains no `data: ` line, so the reading ends normally and an empty
   * assistant message without usage is committed, not the apology.
   */
  lemma ErrorResponseCommitsEmptyReply(message: string, id: string)
    ensures Reply(Body([ErrorBody(message)], Closed), id) == Message(id, Assistant, [], None)
  {
    ErrorBodyIsOneIgnoredLine(message);
    IgnoredLinesSkipped(EmptyDraft, [ErrorBody(message)], []);
    assert [ErrorBody(message)] + [] == [ErrorBody(message)];
    DecodeReadsAsLines(EmptyDraft, [ErrorBody(message)]);
  }
}

/** Consequences for particular streams. */
module Scenarios {
  import opened Wrappers
  import opened Seqs
  import opened ChatTypes
  import opened Json
  import opened TextLines
  import opened Wire
  import opened Relay
  import opened Client
  import opened ClientProperties
  import opened EndToEnd

  /** The `data: ` line of a delta event, without the blank line after it. */
  function DeltaLine(t: string): string
  {
    DataPrefix + Encode(Delta(t))
  }

  lemma DeltaLineIsOneLine(t: string)
    ensures '\n' !in DeltaLine(t)
    ensures DeltaFrame(t) == DeltaLine(t) + "\n\n"
  {
    EncodedIsOneLine(Delta(t));
  }

  /** A line that is not blank, followed by a blank line, reads as that one line. */
  lemma LineThenBlank(s: string, line: string)
    requires s == line + "\n\n"
    requires '\n' !in line && Trim(line) != []
    ensures Lines(s) == [line]
  {
    LineThenBlankThen(s, line, []);
    LinesOfEmpty();
  }

  lemma WholeFrameLines(t: string)
    ensures Lines(DeltaFrame(t)) == [DataPrefix + Encode(Delta(t))]
  {
    var line := DataPrefix + Encode(Delta(t));
    assert '\n' !in line by {
      EncodedIsOneLine(Delta(t));
    }
    DataLineIsNotBlank(Encode(Delta(t)));
    LineThenBlank(DeltaFrame(t), line);
  }

  lemma WholeFrameDecodes(t: string)
    ensures DecodeReads(EmptyDraft, [DeltaFrame(t)]).content == t
  {
    var line := DataPrefix + Encode(Delta(t));
    WholeFrameLines(t);
    DeltaLineStep(EmptyDraft, t);
    assert DecodeLines(EmptyDraft, [line]) == DecodeLines(StepLine(EmptyDraft, line), []);
    assert DecodeReads(EmptyDraft, [DeltaFrame(t)]) == DecodeReads(DecodeLines(EmptyDraft, [line]), []);
  }

  /** The first read of a frame cut inside its line: one line. */
  lemma CutLineHead(t: string, k: nat)
    requires 0 < k < |DeltaLine(t)|
    ensures Lines(DeltaLine(t)[..k]) == [DeltaLine(t)[..k]]
  {
    var line := DeltaLine(t)[..k];
    DeltaLineIsOneLine(t);
    assert '\n' !in line;
    assert Split(line) == [line];
    assert line[0] == 'd';
    StartsNonBlank(line);
    NonBlankSingle(line);
  }

  /** That line is ignored: it is too short for `data: `, or its payload is an encoding cut short. */
  lemma CutLineHeadIgnored(t: string, k: nat)
    requires 0 < k < |DeltaLine(t)|
    ensures Ignored(DeltaLine(t)[..k])
  {
    var line := DeltaLine(t)[..k];
    if k >= |DataPrefix| {
      var data := Encode(Delta(t))[..k - |DataPrefix|];
      assert line == DataPrefix + data;
      DecodeCutEncoding(t, k - |DataPrefix|);
      CutEncodingNotSentinel(t, k - |DataPrefix|);
      DataLineIgnored(line, data);
    }
  }

  /** A `data: ` line whose payload is neither the sentinel nor decodable is ignored. */
  lemma DataLineIgnored(line: string, data: string)
    requires line == DataPrefix + data
    requires data != DoneSentinel && Decode(data) == None
    ensures Ignored(line)
  {
    assert line[|DataPrefix|..] == data;
  }

  /** The rest of the line ends in `}`, so it is not blank. */
  lemma TailNotBlank(t: string, k: nat)
    requires k < |DeltaLine(t)|
    ensures Trim(DeltaLine(t)[k..]) != []
  {
    var rest := DeltaLine(t)[k..];
    assert rest[|rest| - 1] == '}';
    TrimEmptyIffBlank(rest);
  }

  /** The second read of a frame cut inside its line: one line. */
  lemma CutLineTail(t: string, k: nat)
    requires 0 < k < |DeltaLine(t)|
    ensures Lines(DeltaFrame(t)[k..]) == [DeltaLine(t)[k..]]
  {
    var rest := DeltaLine(t)[k..];
    DeltaLineIsOneLine(t);
    assert DeltaFrame(t)[k..] == rest + "\n\n";
    assert '\n' !in rest;
    TailNotBlank(t, k);
    LineThenBlank(DeltaFrame(t)[k..], rest);
  }

  /** That line is ignored: if it starts with `data: `, what follows is a proper suffix of the encoding. */
  lemma CutLineTailIgnored(t: string, k: nat)
    requires 0 < k < |DeltaLine(t)|
    ensures Ignored(DeltaLine(t)[k..])
  {
    var rest := DeltaLine(t)[k..];
    if DataPrefix <= rest {
      var enc := Encode(Delta(t));
      assert rest[|DataPrefix|..] == enc[k..];
      DecodeEncodingTail(t, k);
    }
  }

  /** A frame cut inside its `data: ` line gives nothing: neither read holds a line the client uses. */
  lemma CutLineIsLost(t: string, k: nat)
    requires 0 < k < |DeltaLine(t)|
    ensures DecodeReads(EmptyDraft, [DeltaFrame(t)[..k], DeltaFrame(t)[k..]]) == EmptyDraft
  {
    var head, tail := DeltaLine(t)[..k], DeltaLine(t)[k..];
    var parts := [DeltaFrame(t)[..k], DeltaFrame(t)[k..]];
    DeltaLineIsOneLine(t);
    assert DeltaFrame(t)[..k] == head;
    CutLineHead(t, k);
    CutLineHeadIgnored(t, k);
    CutLineTail(t, k);
    CutLineTailIgnored(t, k);
    assert DecodeLines(EmptyDraft, [head]) == DecodeLines(StepLine(EmptyDraft, head), []);
    assert DecodeLines(EmptyDraft, [tail]) == DecodeLines(StepLine(EmptyDraft, tail), []);
    DecodeReadsStep(EmptyDraft, parts, 0);
    DecodeReadsStep(EmptyDraft, parts, 1);
    assert parts[0..] == parts;
  }

  lemma BlankReads()
    ensures Lines("\n") == [] && Lines("\n\n") == []
  {
    SplitBlankThen([]);
    SplitBlankThen("\n");
    var empty: string := [];
    assert Split([]) == [empty];
    assert Trim(empty) == [];
  }

  lemma WholeLineRead(t: string)
    ensures Lines(DeltaLine(t)) == [DeltaLine(t)]
  {
    var line := DeltaLine(t);
    DeltaLineIsOneLine(t);
    DataLineIsNotBlank(Encode(Delta(t)));
    assert Split(line) == [line];
    NonBlankSingle(line);
  }

  lemma LineAndNewlineRead(t: string)
    ensures Lines(DeltaLine(t) + "\n") == [DeltaLine(t)]
  {
    var line := DeltaLine(t);
    var empty: string := [];
    DeltaLineIsOneLine(t);
    DataLineIsNotBlank(Encode(Delta(t)));
    assert line + "\n" == line + "\n" + empty;
    SplitAfterLine(line, empty);
    assert Split(empty) == [empty];
    NonBlankLineThenBlank(line, []);
    assert [line, empty] + [] == [line, empty];
    assert NonBlank([]) == [];
  }

  /** The first read of a frame cut inside its blank separator: the whole `data: ` line. */
  lemma CutSeparatorHead(t: string, k: nat)
    requires |DeltaLine(t)| <= k < |DeltaFrame(t)|
    ensures Lines(DeltaFrame(t)[..k]) == [DeltaLine(t)]
    ensures DeltaFrame(t)[k..] == "\n" || DeltaFrame(t)[k..] == "\n\n"
  {
    var line := DeltaLine(t);
    assert DeltaFrame(t) == line + "\n\n" by {
      DeltaLineIsOneLine(t);
    }
    if k == |line| {
      assert DeltaFrame(t)[..k] == line;
      WholeLineRead(t);
    } else {
      assert DeltaFrame(t)[..k] == line + "\n";
      LineAndNewlineRead(t);
    }
  }

  /** A frame cut inside its blank separator keeps its text. */
  lemma CutSeparatorKeepsText(t: string, k: nat)
    requires |DeltaLine(t)| <= k < |DeltaFrame(t)|
    ensures DecodeReads(EmptyDraft, [DeltaFrame(t)[..k], DeltaFrame(t)[k..]]) == EmptyDraft.(content := t)
  {
    var line := DeltaLine(t);
    var parts := [DeltaFrame(t)[..k], DeltaFrame(t)[k..]];
    var after := EmptyDraft.(content := t);
    assert Lines(parts[0]) == [line] && Lines(parts[1]) == [] by {
      CutSeparatorHead(t, k);
      BlankReads();
    }
    assert DecodeLines(EmptyDraft, [line]) == after by {
      DeltaLineStep(EmptyDraft, t);
      assert [] + t == t;
      assert DecodeLines(EmptyDraft, [line]) == DecodeLines(StepLine(EmptyDraft, line), []);
    }
    assert DecodeReads(EmptyDraft, parts) == DecodeReads(after, parts[1..]) by {
      DecodeReadsStep(EmptyDraft, parts, 0);
      assert parts[0..] == parts;
    }
    DecodeReadsStep(after, parts, 1);
    assert DecodeLines(after, []) == after;
  }

  /**
   * No partial line is carried from one read to the next. A delta frame that
   * arrives whole gives its text. Cut in two reads, it gives nothing when the
   * cut falls inside its `data: ` line, and its text when the cut falls in the
   * blank line after it.
   */
  lemma SplitFrameIsLost(t: string, k: nat)
    requires 0 < k < |DeltaFrame(t)|
    ensures DecodeReads(EmptyDraft, [DeltaFrame(t)]).content == t
    ensures DecodeReads(EmptyDraft, [DeltaFrame(t)[..k], DeltaFrame(t)[k..]]).content
         == if k < |DeltaLine(t)| then [] else t
  {
    WholeFrameDecodes(t);
    if k < |DeltaLine(t)| {
      CutLineIsLost(t, k);
    } else {
      CutSeparatorKeepsText(t, k);
    }
  }

  /** Each element on its own: one frame per read. */
  function Singletons(xs: seq<string>): seq<seq<string>>
  {
    seq(|xs|, i requires 0 <= i < |xs| => [xs[i]])
  }

  lemma FlattenOne(x: string)
    ensures Flatten([x]) == x
  {
    assert [x][1..] == [];
  }

  lemma {:induction false} SingletonsFlatten(xs: seq<string>)
    ensures Flatten(Singletons(xs)) == xs
  {
    if xs != [] {
      assert Singletons(xs)[1..] == Singletons(xs[1..]);
      SingletonsFlatten(xs[1..]);
      assert xs == [xs[0]] + xs[1..];
    }
  }

  lemma SingletonReads(xs: seq<string>)
    ensures Flatten(Singletons(xs)) == xs
    ensures Joined(Singletons(xs)) == xs
  {
    SingletonsFlatten(xs);
    forall i | 0 <= i < |xs|
      ensures Joined(Singletons(xs))[i] == xs[i]
    {
      FlattenOne(xs[i]);
    }
  }

  /**
   * A two-chunk reply whose last chunk reports 5 prompt and 12 completion
   * tokens, one frame per read: the committed reply holds both texts and the
   * usage 5 + 12 = 17.
   */
  lemma TwoChunkReply(first: string, second: string, id: string)
    ensures
      var chunks := [Chunk(first, None), Chunk(second, Some(UsageMetadata(Some(5), Some(12))))];
      var frames := EmittedFrames(chunks, false);
      Reply(Body(frames, Closed), id) == Message(id, Assistant, first + second, Some(TokenUsage(5, 12, 17)))
  {
    var chunks := [Chunk(first, None), Chunk(second, Some(UsageMetadata(Some(5), Some(12))))];
    var frames := EmittedFrames(chunks, false);
    SingletonReads(frames);
    RelayReply(chunks, Singletons(frames), Closed, id);
    assert FinalUsage(chunks) == TokenUsage(5, 12, 17) by {
      CountersAreLatest(chunks, 1);
    }
    assert Texts(chunks) == first + second by {
      assert chunks[1..][1..] == [];
      assert Texts(chunks[1..]) == second + Texts([]);
    }
  }
}
