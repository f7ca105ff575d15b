# Streaming chat relay, stream reader and conversation list — a Dafny model

The system is a small chat web application with three parts.

- **The relay** is the `POST` handler of the chat route. It takes the posted conversation as a list of `{role, content}` entries. All entries but the last become the upstream model's history, and the last one's content becomes the new turn. The relay then re-frames the upstream's chunks as a server-sent event stream (section 9.2 of the WHATWG HTML Living Standard):
  - one `data: {"choices":[{"delta":{"content":…}}]}` event per chunk;
  - then one `data: {"tokenUsage":{…}}` event carrying the last token counters the upstream reported;
  - then `data: [DONE]`.

  A request it cannot read, or an upstream that refuses, gets a status-500 JSON `{error}` body instead. An upstream that fails mid-stream errors the stream.
- **The client's send handler** (`handleSendMessage` of the chat component) works in four steps.
  - It appends the trimmed text as a user message and posts the whole list.
  - It reads the event stream read by read. It splits each read on `\n`, drops blank lines, keeps only `data: ` lines, stops at `[DONE]` and skips payloads it cannot parse.
  - While reading, it appends each non-empty delta to the assistant message and keeps the last usage summary.
  - It then commits the user message and the reply in one update. On a fetch failure, a missing body or a rejected read, it commits a fixed apology instead.
- **The conversation controller** (the home page) holds the list of conversations and the one being shown. It has four operations: create, select, update and delete. It also has a startup rule: an empty list gets one new conversation.

The model's modules are as follows.

- `Json` covers two parts of JSON (RFC 8259):
  - string literals, written the way JSON.stringify writes them and read back;
  - decimal non-negative integers.
- `TextLines` covers the JavaScript `split('\n')` and `trim()` the client applies to a read.
- `Wire` covers the event framing, the two payloads the relay writes, and the client's parse of them.
- `Relay` contains:
  - the history translation (a function);
  - the chunk loop (a method with a loop, proved against `EmittedFrames`);
  - the route with its error paths.
- `Client` contains the reader as methods with loops. They are proved against the specification functions `StepLine`, `DecodeLines` and `DecodeReads`. The chat component is a class whose fields are `messages` and `isLoading`.
- `ClientProperties` holds what the reader promises on its own terms.
- `EndToEnd` and `Scenarios` state what the relay and the client do together.
- `Conversations` holds the pure list edits and the class `Home`. The class's two fields are `conversations` and `currentConversation`. Its invariant is that the conversation shown is in the list, and is the first conversation there with its id.

The headline result is `EndToEnd.RelayStreamDecodes`. Group the relay's frames into reads in any way, as long as no frame is cut. Then the client ends with every chunk's text concatenated, the relay's final counters, and `[DONE]` seen. `Scenarios.SplitFrameIsLost` shows the other side. A delta frame cut anywhere inside its `data: ` line contributes nothing, because neither half parses. The same frame cut inside its trailing blank line still gives its text.

Where the system's written design and its code differ, the model follows the code:

- The relay writes a delta event for every chunk, including a chunk with empty text, not only for non-empty deltas (app/api/chat/route.ts:74-93).
- A chunk carrying usage metadata overwrites both counters, and an absent count becomes 0. The relay does not keep "the latest non-zero values" (app/api/chat/route.ts:79-82).
- The client never checks the response status. The relay's status-500 JSON body has no `data: ` line, so it commits an empty assistant message rather than the apology (`EndToEnd.ErrorResponseCommitsEmptyReply`).
- The title falls back to the placeholder also when the first message's content is empty, not only when there are no messages (app/page.tsx:52-54).

## Model

| member | source | states |
|---|---|---|
| Relay.Translate | app/api/chat/route.ts:32-40 | The upstream request exists exactly when the posted list is non-empty. Its history has one entry fewer than the list. Entry i keeps message i's content, with role `model` for `assistant` and `user` for any other role. The new turn is the last message's content. |
| Relay.UntranslateTranslate | app/api/chat/route.ts:32-40 | For lists as the client posts them (roles `user`/`assistant`, last one `user`), the posted list can be rebuilt from the upstream request: nothing is lost or reordered. |
| Relay.CountersAreLatest | app/api/chat/route.ts:62-82 | The counters after the chunk loop are those of the last chunk with usage metadata, with each absent count read as 0. |
| Relay.CountersWithoutUsage | app/api/chat/route.ts:62-63 | With no usage metadata at all, both counters stay 0. |
| Relay.FinalUsage | app/api/chat/route.ts:96-106 | The usage summary sent carries the final counters, and its total is their sum. |
| Relay.DeltaFrames | app/api/chat/route.ts:74-93 | There is exactly one delta frame per chunk, in upstream order. Frame i carries chunk i's text, even when that text is empty. |
| Relay.EmittedFramesShape | app/api/chat/route.ts:74-114 | The emitted frames are the delta frames. On normal completion exactly two more follow: the usage frame, then the `[DONE]` frame. When the upstream throws, nothing follows. |
| Relay.Stream | app/api/chat/route.ts:62-120 | The chunk loop emits `EmittedFrames(chunks, fails)`: one delta frame per chunk, then the usage frame and `[DONE]` unless the upstream throws. It errors the stream exactly when the upstream throws. |
| Relay.Post | app/api/chat/route.ts:19-150 | Each of these gives a status-500 error with its own message and no stream, and nothing reaches the upstream in the first three cases: an unreadable body, a missing list, an empty list, an upstream that refuses. Otherwise the upstream gets the translated list, and the response is the event stream of its chunks. |
| Relay.ErrorBodyPrintable | app/api/chat/route.ts:144-149 | The `{error}` body holds no control character, so it is a single line. |
| Json.Escape | app/api/chat/route.ts:85-91 | A string as JSON.stringify escapes it holds no control character, a line feed in particular. |
| Json.QuotePrintable | app/api/chat/route.ts:85-91 | A quoted string literal holds no control character. |
| Json.NatToString | app/api/chat/route.ts:100-106 | An integer is written as a non-empty run of decimal digits with no leading zero. |
| Json.ParseQuoted | components/ChatInterface.tsx:86-88 | Parsing what JSON.stringify wrote for a string gives back that string and leaves the text after it. |
| Json.EscapeQuotes | app/api/chat/route.ts:85-91 | Every double quote in an escaped string is preceded by a backslash, so the escaped text never closes the literal early. |
| Json.ParseStringExtend | components/ChatInterface.tsx:86-88 | A string literal that parses still parses to the same value when more text follows it. |
| Json.ParseCutQuoted | components/ChatInterface.tsx:86-88 | Cutting a quoted string and the text after it short of the end never yields a parse that leaves that text whole. |
| Json.ParseNatToString | components/ChatInterface.tsx:86-93 | Parsing a written integer gives back the integer and leaves the text after it. |
| Wire.EncodePrintable | app/api/chat/route.ts:85-106 | Neither payload the relay writes holds a control character, so each event's `data: ` line is one line. |
| Wire.DecodeEncode | components/ChatInterface.tsx:86-94 | The client parses each payload the relay writes back to exactly that payload: a delta's text, or a usage summary's three numbers. |
| Wire.SentinelIsNotPayload | components/ChatInterface.tsx:80-86 | `[DONE]` does not parse as a payload. |
| Wire.DecodeCutEncoding | components/ChatInterface.tsx:86-88 | No proper prefix of an encoded delta parses as a payload. |
| Wire.EncodingKeyOnlyAtStart | app/api/chat/route.ts:85-91 | A payload key opens the encoded delta only at its first character: the escaped text cannot contain one. |
| Wire.DecodeEncodingTail | components/ChatInterface.tsx:80-88 | No proper non-empty suffix of an encoded delta parses as a payload or is `[DONE]`. |
| TextLines.TrimStartSpec | components/ChatInterface.tsx:30-35 | Trimming the start removes a whitespace-only prefix, and exactly that: what remains is empty or starts with a non-whitespace character. |
| TextLines.TrimEndSpec | components/ChatInterface.tsx:30-35 | Trimming the end removes a whitespace-only suffix, and exactly that: what remains is empty or ends with a non-whitespace character. |
| TextLines.TrimEmptyIffBlank | components/ChatInterface.tsx:30 | Trimming leaves nothing exactly when the text is all whitespace. |
| TextLines.SplitPiecesAreLines | components/ChatInterface.tsx:76 | No piece of a split on `\n` holds a `\n`. |
| TextLines.JoinSplit | components/ChatInterface.tsx:76 | Joining the pieces of the split with `\n` gives back the read. |
| TextLines.NonBlankFilter | components/ChatInterface.tsx:76 | The filter keeps a piece exactly when the piece is not all whitespace. |
| TextLines.LineThenBlankThen | components/ChatInterface.tsx:76 | A non-blank line followed by `\n\n` and more text reads as that line, then the lines of the rest. |
| Client.Posted | components/ChatInterface.tsx:48-53 | The posted list has one entry per message, in order, holding that message's role name and content. |
| EndToEnd.PostedReachesUpstream | components/ChatInterface.tsx:48-53 | What the client posts reaches the upstream intact: the history is the earlier messages with roles `model`/`user`, the new turn is the user's text, and the posted list can be rebuilt from the request. |
| Client.GrowingAppend | components/ChatInterface.tsx:87-89 | Showing the content after a non-empty append keeps every shown content a strict prefix of the next. |
| Client.ReadLine | components/ChatInterface.tsx:79-97 | One line gives the draft `StepLine` specifies: `[DONE]` marks the end, a non-empty delta is appended, and a usage payload replaces the usage. The contents shown keep growing. |
| Client.ReadLines | components/ChatInterface.tsx:76-99 | The inner loop gives the draft `DecodeLines` specifies for the read's lines. It stops at `[DONE]`, and the contents shown keep growing. |
| Client.ReadEventStream | components/ChatInterface.tsx:69-101 | The read loop gives the draft `DecodeReads` specifies. It ends in a rejection exactly when the stream failed before `[DONE]`. Every content shown is non-empty, a prefix of the final content and a strict prefix of the next, and the last one shown is the final content. |
| Client.Receive | components/ChatInterface.tsx:42-115 | The reply committed is `Reply`: the apology for a failed fetch, a missing body, or a rejection before `[DONE]`, and otherwise the decoded content and usage. Everything shown is a prefix of the decoded content. |
| Client.ChatInterface.constructor | components/ChatInterface.tsx:17-18 | The component starts with the conversation's messages and is not loading. |
| Client.ChatInterface.HandleSendMessage | components/ChatInterface.tsx:29-119 | Blank text, or a turn still loading, changes nothing and posts nothing. Otherwise the trimmed text is appended as a user message and the whole list is posted. Exactly the user message and the reply are committed, the component shows that list, and loading is off afterwards. |
| ClientProperties.DecodeLinesAppend | components/ChatInterface.tsx:78-99 | Decoding lines in two batches is decoding them in one. |
| ClientProperties.DecodeReadsAsLines | components/ChatInterface.tsx:69-101 | Decoding the reads is decoding all their lines in one go: read boundaries matter only through the lines they cut. |
| ClientProperties.DoneDraftIsFinal | components/ChatInterface.tsx:81-84 | After `[DONE]` no further line changes the draft. |
| ClientProperties.DoneIgnoresLaterLines | components/ChatInterface.tsx:81-84 | A `[DONE]` line marks the end, and the lines after it in the same read change nothing. |
| ClientProperties.DoneIgnoresLaterReads | components/ChatInterface.tsx:69-84 | Once `[DONE]` has been seen, any further reads change nothing. |
| ClientProperties.IgnoredLinesSkipped | components/ChatInterface.tsx:78-97 | Lines that are not `data: ` lines, or whose payload does not parse, are skipped, and the lines after them still count. |
| ClientProperties.ContentOnlyGrows | components/ChatInterface.tsx:87-89 | The content is only ever appended to: the content before any lines is a prefix of the content after them. |
| ClientProperties.UsageSurvives | components/ChatInterface.tsx:85-94 | Lines none of which carries a usage payload leave the usage unchanged, whatever else they are. |
| ClientProperties.UsageSurvivesReads | components/ChatInterface.tsx:69-94 | The same holds across reads: if no line of any read carries a usage payload, the usage is unchanged. |
| ClientProperties.LastUsageWins | components/ChatInterface.tsx:92-94 | A usage payload followed by any lines that carry no usage payload leaves that usage as the draft's usage. |
| ClientProperties.DeltaLinesKeepUsage | components/ChatInterface.tsx:85-94 | Delta payloads leave the usage unchanged. |
| EndToEnd.RelayPayloadsAreOneLine | app/api/chat/route.ts:85-112 | None of the payloads the relay writes on normal completion holds a line feed. |
| EndToEnd.EmittedFramesArePayloadFrames | app/api/chat/route.ts:85-112 | Every frame emitted on normal completion is `data: ` plus a payload plus a blank line. The payloads are the encoded deltas, the encoded usage and `[DONE]`. |
| EndToEnd.RelayStreamDecodes | components/ChatInterface.tsx:69-101 | The relay's frames can be grouped into reads in any way that cuts no frame. The client then decodes the concatenation of all chunk texts and the relay's final usage, and sees `[DONE]`. |
| EndToEnd.RelayReply | components/ChatInterface.tsx:103-105 | For such reads, the reply committed is the assistant message with the concatenated texts and the relay's final usage, whether the last read closes or rejects. |
| EndToEnd.FailedRelayReply | components/ChatInterface.tsx:106-115 | Suppose the upstream throws, and some whole frames got through before the last read rejected. The client commits the apology and discards the partial text. |
| EndToEnd.ErrorBodyIsOneIgnoredLine | app/api/chat/route.ts:144-149 | The relay's status-500 body reads as one line that the client ignores. |
| EndToEnd.ErrorResponseCommitsEmptyReply | components/ChatInterface.tsx:56-105 | The status is never checked, so the relay's status-500 body commits an empty assistant message without usage, not the apology. |
| Scenarios.CutLineIsLost | components/ChatInterface.tsx:74-89 | A delta frame cut at any point inside its `data: ` line, across two reads, leaves the draft empty: no partial line is carried between reads, and neither half parses as a payload. |
| Scenarios.CutSeparatorKeepsText | components/ChatInterface.tsx:74-89 | A delta frame cut inside its trailing blank line gives exactly its text, because the whole `data: ` line arrives in the first read. |
| Scenarios.SplitFrameIsLost | components/ChatInterface.tsx:74-89 | A delta frame that arrives whole gives its text. Cut in two at any point, it gives nothing when the cut falls inside the `data: ` line, and its text when the cut falls in the blank line. |
| Scenarios.TwoChunkReply | app/api/chat/route.ts:74-112 | Take two chunks, the second reporting 5 prompt and 12 completion tokens, read one frame per read. The reply holds both texts in order and the usage 5, 12, 17. |
| Conversations.Title | app/page.tsx:52-54 | The title is at most 50 characters. It is the placeholder when there is no first message or its content is empty. Otherwise it is a non-empty prefix of the first content: the whole content up to 50 characters, and otherwise exactly 50. |
| Conversations.FindById | app/page.tsx:40 | Lookup finds nothing exactly when no conversation has the id. Otherwise it finds the first one that does. |
| Conversations.ReplaceById | app/page.tsx:58-60 | The list keeps its length and order. Every entry with the updated id becomes the update, and every other entry stays. |
| Conversations.RemoveById | app/page.tsx:64 | A conversation stays exactly when it was in the list and does not have the id, and the list never grows. |
| Conversations.RemoveByIdAppend | app/page.tsx:64 | Removal works piece by piece, so it keeps the order of what it keeps. |
| Conversations.RemoveAbsent | app/page.tsx:64 | Removing an id no conversation has changes nothing. |
| Conversations.RemoveTwice | app/page.tsx:63-64 | Deleting the same id twice is deleting it once. |
| Conversations.RemoveFind | app/page.tsx:63-64 | After a removal, looking up any other id finds what it found before. |
| Conversations.ReplaceFind | app/page.tsx:58-60 | After a replacement, a lookup of the replaced id finds the new value. A lookup of any other id finds what it found before. |
| Conversations.ReplaceKeepsCurrent | app/page.tsx:57-60 | Replacing a listed conversation puts the new value in the list. |
| Conversations.Home.constructor | app/page.tsx:25-26 | The page starts with no conversations and none shown. |
| Conversations.Home.CreateNewConversation | app/page.tsx:29-37 | A new empty conversation titled `New Chat` goes first, is shown, and the others keep their order. The shown conversation is still in the list. |
| Conversations.Home.SelectConversation | app/page.tsx:39-44 | A known id shows the first conversation with that id. An unknown id changes nothing. Selecting the shown conversation's id keeps it shown. The list is unchanged. |
| Conversations.Home.UpdateConversation | app/page.tsx:46-61 | With nothing shown, nothing changes. Otherwise the shown conversation gets the messages and the recomputed title, and every list entry with its id is replaced. The shown conversation is still in the list. |
| Conversations.Home.DeleteConversation | app/page.tsx:63-68 | Every conversation with the id is removed. The shown conversation is cleared exactly when it has the id, and no other is selected. |
| Conversations.Home.Mount | app/page.tsx:70-74 | At startup an empty list gets exactly one new conversation, which is shown. Otherwise nothing changes. |

## Left out

- The upstream model library, its model name, the system instruction and the API key are not modelled. The upstream is an input: it either refuses before streaming, or yields a sequence of chunks (text plus optional usage counters) and then ends or throws.
- Logging, the response headers, and the byte encoding and decoding of reads (TextEncoder/TextDecoder) are not modelled. Reads are text. A multi-byte character cut across reads is therefore not captured.
- General JSON.parse is not modelled. Any text other than the two payload layouts the relay writes counts as a parse failure, which the client skips like a payload without the fields it reads.
- Wire.Decode: reads the JSON string escapes, but rejects every `\u` escape of a surrogate code unit, including a valid surrogate pair that JSON.parse accepts. The relay never writes such an escape, since JSON.stringify writes a paired astral character as itself.
- Token counts are JavaScript numbers (doubles) in the source and unbounded `nat` here. JSON.stringify writes a count of 1e21 or more in exponent form, which `Json.NatToString` and `Json.ParseNat` do not cover. The total `promptTokens + completionTokens` is rounded above 2^53, and the model does not round it.
- The messages of the errors the JavaScript engine throws for a missing or empty list are constants. The message of an unreadable body or a refusing upstream is an input.
- The model does not capture the difference between JavaScript strings (UTF-16 code units) and Dafny characters (Unicode scalar values). This matters for the 50-unit title cut, and for `\u` escapes of surrogates.
- React's scheduling and effects are not modelled: state updates are atomic steps. This also leaves out the effect that copies a newly selected conversation's messages into the chat component, scrolling, and the stale closures that arise when the conversation changes while a reply streams.
- Ids come from the clock in the source. Here they are inputs, so they are not assumed unique.
- Rendering during streaming is modelled as the sequence `shown` of contents displayed after each append. The mutable assistant message being shared between renders is not modelled.
- Client.Receive: states only that everything shown is a prefix of the decoded content, not the full growth order. That order is stated by `Client.ReadEventStream`, which it calls.
- Client.ChatInterface.HandleSendMessage: likewise states for `shown` only the prefix relation to the decoded content.
