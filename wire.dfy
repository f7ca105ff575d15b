/**
 * The event stream between relay and client: each event is one `data: ` line
 * followed by a blank line (section 9.2 of the WHATWG HTML Living Standard),
 * carrying either a JSON payload or the `[DONE]` sentinel.
 */
module Wire {
  import opened Wrappers
  import opened ChatTypes
  import opened Json

  const DataPrefix := "data: "
  const DoneSentinel := "[DONE]"

  const DeltaOpen := "{\"choices\":[{\"delta\":{\"content\":"
  const DeltaClose := "}}]}"
  const UsageOpen := "{\"tokenUsage\":{\"promptTokens\":"
  const CompletionKey := ",\"completionTokens\":"
  const TotalKey := ",\"totalTokens\":"
  const UsageClose := "}}"

  /** The two payloads the relay writes: a text delta and the token usage summary. */
  datatype Payload = Delta(content: string) | Usage(usage: TokenUsage)

  /** JSON.stringify of the payload object, keys in the order the relay writes them. */
  function Encode(p: Payload): string
  {
    match p
    case Delta(c) => DeltaOpen + Quote(c) + DeltaClose
    case Usage(u) =>
      UsageOpen + NatToString(u.promptTokens) + CompletionKey + NatToString(u.completionTokens)
      + TotalKey + NatToString(u.totalTokens) + UsageClose
  }

  /** One event: the `data: ` line and the empty line that ends it. */
  function Frame(payload: string): string
  {
    DataPrefix + payload + "\n\n"
  }

  function DeltaFrame(text: string): string
  {
    Frame(Encode(Delta(text)))
  }

  function UsageFrame(u: TokenUsage): string
  {
    Frame(Encode(Usage(u)))
  }

  const DoneFrame := Frame(DoneSentinel)

  /**
   * The client's JSON.parse of one payload, seen through the two fields it
   * reads. Only the layouts the relay writes are recognised; any other text
   * gives None, which the client treats like a parse failure.
   */
  function Decode(text: string): Option<Payload>
  {
    if DeltaOpen <= text then
      match ParseString(text[|DeltaOpen|..])
      case Some((v, rest)) => if rest == DeltaClose then Some(Delta(v)) else None
      case None => None
    else DecodeUsage(text)
  }

  /** A key (with the punctuation before it) followed by an integer value. */
  function Field(key: string, s: string): Option<(nat, string)>
  {
    if key <= s then ParseNat(s[|key|..]) else None
  }

  function DecodeUsage(text: string): Option<Payload>
  {
    match Field(UsageOpen, text)
    case None => None
    case Some((p, r1)) =>
      match Field(CompletionKey, r1)
      case None => None
      case Some((c, r2)) =>
        match Field(TotalKey, r2)
        case None => None
        case Some((t, r3)) => if r3 == UsageClose then Some(Usage(TokenUsage(p, c, t))) else None
  }

  lemma FieldOf(key: string, n: nat, tail: string)
    requires tail == [] || !IsDigit(tail[0])
    ensures Field(key, key + NatToString(n) + tail) == Some((n, tail))
  {
    var s := key + NatToString(n) + tail;
    assert s[|key|..] == NatToString(n) + tail;
    ParseNatToString(n, tail);
  }

  /** A payload never holds a control character, so never a line break: each event is one line. */
  lemma EncodePrintable(p: Payload)
    ensures Printable(Encode(p))
  {
    match p
    case Delta(c) => DeltaPrintable(c);
    case Usage(u) => UsagePrintable(u);
  }

  lemma DeltaPrintable(c: string)
    ensures Printable(Encode(Delta(c)))
  {
    assert Printable(DeltaOpen);
    assert Printable(DeltaClose);
    PrintableAppend("\"", Escape(c));
    PrintableAppend("\"" + Escape(c), "\"");
    PrintableAppend(DeltaOpen, Quote(c));
    PrintableAppend(DeltaOpen + Quote(c), DeltaClose);
  }

  lemma UsagePrintable(u: TokenUsage)
    ensures Printable(Encode(Usage(u)))
  {
    assert Printable(UsageOpen);
    assert Printable(CompletionKey);
    assert Printable(TotalKey);
    assert Printable(UsageClose);
    var pt, ct, tt := NatToString(u.promptTokens), NatToString(u.completionTokens), NatToString(u.totalTokens);
    PrintableAppend(UsageOpen, pt);
    PrintableAppend(UsageOpen + pt, CompletionKey);
    PrintableAppend(UsageOpen + pt + CompletionKey, ct);
    PrintableAppend(UsageOpen + pt + CompletionKey + ct, TotalKey);
    PrintableAppend(UsageOpen + pt + CompletionKey + ct + TotalKey, tt);
    PrintableAppend(UsageOpen + pt + CompletionKey + ct + TotalKey + tt, UsageClose);
  }

  /** The client reads back exactly the payload the relay wrote. */
  lemma DecodeEncode(p: Payload)
    ensures Decode(Encode(p)) == Some(p)
  {
    match p
    case Delta(c) => DecodeDeltaEncoding(c);
    case Usage(u) => DecodeUsageEncoding(u);
  }

  lemma DecodeDeltaEncoding(c: string)
    ensures Decode(Encode(Delta(c))) == Some(Delta(c))
  {
    var text := DeltaOpen + Quote(c) + DeltaClose;
    assert text[|DeltaOpen|..] == Quote(c) + DeltaClose;
    ParseQuoted(c, DeltaClose);
  }

  lemma DecodeUsageEncoding(u: TokenUsage)
    ensures Decode(Encode(Usage(u))) == Some(Usage(u))
  {
    var text := Encode(Usage(u));
    assert text[..|UsageOpen|] == UsageOpen;
    assert !(DeltaOpen <= text) by { assert text[2] == UsageOpen[2] != DeltaOpen[2]; }
    UsageFields(u);
  }

  /** The three fields of a written usage summary read back in order. */
  lemma UsageFields(u: TokenUsage)
    ensures DecodeUsage(Encode(Usage(u))) == Some(Usage(u))
  {
    var pt, ct, tt := NatToString(u.promptTokens), NatToString(u.completionTokens), NatToString(u.totalTokens);
    var r2 := TotalKey + tt + UsageClose;
    var r1 := CompletionKey + ct + r2;
    assert Encode(Usage(u)) == UsageOpen + pt + r1;
    FieldOf(UsageOpen, u.promptTokens, r1);
    FieldOf(CompletionKey, u.completionTokens, r2);
    FieldOf(TotalKey, u.totalTokens, UsageClose);
  }

  /** A delta encoding cut short does not parse: its string literal, or what follows it, is incomplete. */
  lemma DecodeCutEncoding(t: string, m: nat)
    requires m < |Encode(Delta(t))|
    ensures Decode(Encode(Delta(t))[..m]) == None
  {
    var body := Quote(t) + DeltaClose;
    var enc := Encode(Delta(t));
    var p := enc[..m];
    assert enc == DeltaOpen + body;
    if DeltaOpen <= p {
      assert p[|DeltaOpen|..] == body[..m - |DeltaOpen|];
      ParseCutQuoted(t, DeltaClose, m - |DeltaOpen|);
    } else if |p| >= 3 {
      assert p[2] == DeltaOpen[2];
      assert !(UsageOpen <= p) by { assert p[2] != UsageOpen[2]; }
    }
  }

  lemma CutEncodingNotSentinel(t: string, m: nat)
    requires m < |Encode(Delta(t))|
    ensures Encode(Delta(t))[..m] != DoneSentinel
  {
    if m > 0 {
      assert Encode(Delta(t))[..m][0] == DeltaOpen[0];
    }
  }

  /** Where a payload layout could start: `{"t` (usage) or `{"ch` (delta). */
  predicate KeyAt(w: string, i: nat)
  {
    && i + 3 < |w|
    && w[i] == '{' && w[i + 1] == '"'
    && (w[i + 2] == 't' || (w[i + 2] == 'c' && w[i + 3] == 'h'))
  }

  /** Text that decodes starts with one of the two layouts. */
  lemma DecodeNeedsKey(s: string)
    ensures Decode(s).Some? ==> KeyAt(s, 0)
  {
    if DeltaOpen <= s {
      OpenIsKey(DeltaOpen, s);
    } else if DecodeUsage(s).Some? {
      DecodeUsageNeedsOpen(s);
      OpenIsKey(UsageOpen, s);
    }
  }

  lemma DecodeUsageNeedsOpen(s: string)
    requires DecodeUsage(s).Some?
    ensures UsageOpen <= s
  {
  }

  lemma OpenIsKey(open: string, s: string)
    requires open == DeltaOpen || open == UsageOpen
    requires open <= s
    ensures KeyAt(s, 0)
  {
    assert s[0] == open[0] && s[1] == open[1] && s[2] == open[2] && s[3] == open[3];
  }

  lemma DeltaOpenBraces(j: nat)
    requires 0 < j < |DeltaOpen| && DeltaOpen[j] == '{'
    ensures j == 12 || j == 21
  {
  }

  /** Inside a delta encoding, the only place a layout starts is its first character. */
  lemma EncodingKeyOnlyAtStart(t: string, j: nat)
    requires 0 < j
    ensures !KeyAt(Encode(Delta(t)), j)
  {
    var n := |DeltaOpen| + 1;
    if j < |DeltaOpen| {
      NoKeyInOpen(t, j);
    } else if j == |DeltaOpen| {
      assert Encode(Delta(t))[j] == Quote(t)[0];
    } else if j < n + |Escape(t)| {
      NoKeyInBody(t, j);
    } else if j < |Encode(Delta(t))| {
      NoKeyInClose(t, j);
    }
  }

  lemma NoKeyInOpen(t: string, j: nat)
    requires 0 < j < |DeltaOpen|
    ensures !KeyAt(Encode(Delta(t)), j)
  {
    var enc := Encode(Delta(t));
    assert enc[..|DeltaOpen|] == DeltaOpen;
    assert enc[j] == DeltaOpen[j];
    if enc[j] == '{' {
      DeltaOpenBraces(j);
      assert enc[j + 2] == DeltaOpen[j + 2] && enc[j + 3] == DeltaOpen[j + 3];
    }
  }

  /** In the escaped text a quote follows a backslash, and the closing quote is followed by `}`. */
  lemma NoKeyInBody(t: string, j: nat)
    requires |DeltaOpen| < j < |DeltaOpen| + 1 + |Escape(t)|
    ensures !KeyAt(Encode(Delta(t)), j)
  {
    var pre, e, post := DeltaOpen + "\"", Escape(t), "\"" + DeltaClose;
    assert Encode(Delta(t)) == pre + e + post;
    assert |post| >= 2 && post[0] == '"' && post[1] == '}';
    assert forall i :: 0 <= i < |e| && e[i] == '"' ==> 0 < i && e[i - 1] == '\\' by {
      EscapeQuotes(t);
    }
    NoKeyInMiddle(Encode(Delta(t)), pre, e, post, j);
  }

  /**
   * A text whose quotes all follow a backslash, put before a quote and a `}`:
   * no layout starts inside it.
   */
  lemma NoKeyInMiddle(enc: string, pre: string, e: string, post: string, j: nat)
    requires enc == pre + e + post
    requires |pre| <= j < |pre| + |e|
    requires |post| >= 2 && post[0] == '"' && post[1] == '}'
    requires forall i :: 0 <= i < |e| && e[i] == '"' ==> 0 < i && e[i - 1] == '\\'
    ensures !KeyAt(enc, j)
  {
    assert enc[j] == e[j - |pre|];
    if j + 1 < |pre| + |e| {
      assert enc[j + 1] == e[j + 1 - |pre|];
    } else {
      assert enc[j + 1] == post[0];
      assert enc[j + 2] == post[1];
    }
  }

  lemma NoKeyInClose(t: string, j: nat)
    requires |DeltaOpen| + 1 + |Escape(t)| <= j < |Encode(Delta(t))|
    ensures !KeyAt(Encode(Delta(t)), j)
  {
    var e := Escape(t);
    var enc := Encode(Delta(t));
    var n := |DeltaOpen| + 1;
    assert enc == (DeltaOpen + "\"") + e + ("\"" + DeltaClose);
    assert enc[j] == ("\"" + DeltaClose)[j - n - |e|];
  }

  /** No proper suffix of a delta encoding is a payload or the sentinel. */
  lemma DecodeEncodingTail(t: string, j: nat)
    requires 0 < j <= |Encode(Delta(t))|
    ensures Decode(Encode(Delta(t))[j..]) == None
    ensures Encode(Delta(t))[j..] != DoneSentinel
  {
    var enc := Encode(Delta(t));
    var s := enc[j..];
    DecodeNeedsKey(s);
    EncodingKeyOnlyAtStart(t, j);
    assert KeyAt(s, 0) ==> KeyAt(enc, j);
    if s != [] {
      assert s[|s| - 1] == enc[|enc| - 1] == '}';
    }
  }

  /** The sentinel is not a payload, so the client must test for it before parsing. */
  lemma SentinelIsNotPayload()
    ensures Decode(DoneSentinel) == None
  {
    assert !(DeltaOpen <= DoneSentinel) by { assert DoneSentinel[0] != DeltaOpen[0]; }
    assert Field(UsageOpen, DoneSentinel) == None by { assert DoneSentinel[0] != UsageOpen[0]; }
  }
}
