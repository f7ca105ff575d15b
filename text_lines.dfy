/**
 * The JavaScript string operations the client applies to each read:
 * split on '\n' and trim (String.prototype.split and String.prototype.trim).
 */
module TextLines {
  /** WhiteSpace and LineTerminator of ECMA-262: the characters trim removes. */
  predicate IsJsWhitespace(c: char)
  {
    c == '\t' || c == '\U{B}' || c == '\U{C}' || c == ' ' || c == '\U{A0}' || c == '\U{1680}'
    || ('\U{2000}' <= c <= '\U{200A}') || c == '\U{202F}' || c == '\U{205F}' || c == '\U{3000}'
    || c == '\U{FEFF}' || c == '\n' || c == '\r' || c == '\U{2028}' || c == '\U{2029}'
  }

  predicate Blank(s: string)
  {
    forall i :: 0 <= i < |s| ==> IsJsWhitespace(s[i])
  }

  /** `s` without its leading whitespace. */
  function TrimStart(s: string): string
  {
    if s != [] && IsJsWhitespace(s[0]) then TrimStart(s[1..]) else s
  }

  /** `s` without its trailing whitespace. */
  function TrimEnd(s: string): string
  {
    if s != [] && IsJsWhitespace(s[|s| - 1]) then TrimEnd(s[..|s| - 1]) else s
  }

  /** String.prototype.trim */
  function Trim(s: string): string
  {
    TrimEnd(TrimStart(s))
  }

  /** TrimStart drops a blank prefix, and exactly that: what it keeps starts with a non-space. */
  lemma {:induction false} TrimStartSpec(s: string)
    ensures |TrimStart(s)| <= |s| && TrimStart(s) == s[|s| - |TrimStart(s)|..]
    ensures Blank(s[..|s| - |TrimStart(s)|])
    ensures TrimStart(s) != [] ==> !IsJsWhitespace(TrimStart(s)[0])
    decreases |s|
  {
    if s != [] && IsJsWhitespace(s[0]) {
      var r := TrimStart(s[1..]);
      assert TrimStart(s) == r;
      TrimStartSpec(s[1..]);
      var k := |s| - |r|;
      assert s[1..][|s| - 1 - |r|..] == s[k..];
      assert Blank(s[1..][..k - 1]);
      forall i | 0 <= i < k
        ensures IsJsWhitespace(s[..k][i])
      {
        if i > 0 {
          assert s[..k][i] == s[1..][..k - 1][i - 1];
        }
      }
    }
  }

  /** TrimEnd drops a blank suffix, and exactly that: what it keeps ends with a non-space. */
  lemma {:induction false} TrimEndSpec(s: string)
    ensures |TrimEnd(s)| <= |s| && TrimEnd(s) == s[..|TrimEnd(s)|]
    ensures Blank(s[|TrimEnd(s)|..])
    ensures TrimEnd(s) != [] ==> !IsJsWhitespace(TrimEnd(s)[|TrimEnd(s)| - 1])
    decreases |s|
  {
    if s != [] && IsJsWhitespace(s[|s| - 1]) {
      var p := s[..|s| - 1];
      var r := TrimEnd(p);
      TrimEndSpec(p);
      assert p[..|r|] == s[..|r|];
      forall i | |r| <= i < |s|
        ensures IsJsWhitespace(s[i])
      {
        if i < |s| - 1 {
          assert s[i] == p[|r|..][i - |r|];
        }
      }
      assert forall i :: 0 <= i < |s| - |r| ==> s[|r|..][i] == s[|r| + i];
    }
  }

  lemma BlankAppend(a: string, b: string)
    requires Blank(a)
    ensures Blank(a + b) <==> Blank(b)
  {
    assert forall i :: 0 <= i < |b| ==> b[i] == (a + b)[|a| + i];
  }

  /** Text that does not start with whitespace trims its end to nothing only when it is empty. */
  lemma TrimEndOfTrimmed(t: string)
    requires t != [] ==> !IsJsWhitespace(t[0])
    ensures TrimEnd(t) == [] <==> t == []
  {
    TrimEndSpec(t);
    var r := TrimEnd(t);
    assert Blank(t[|r|..]);
    assert r == [] ==> t[|r|..] == t;
  }

  /** Trimming leaves nothing exactly when the text is all whitespace. */
  lemma TrimEmptyIffBlank(s: string)
    ensures Trim(s) == [] <==> Blank(s)
  {
    TrimStartSpec(s);
    var t := TrimStart(s);
    var k := |s| - |t|;
    assert Blank(s) <==> Blank(t) by {
      assert s == s[..k] + t;
      BlankAppend(s[..k], t);
    }
    assert Trim(s) == [] <==> t == [] by {
      TrimEndOfTrimmed(t);
    }
  }

  /** Index of the first '\n'. */
  function FirstNewline(s: string): (i: nat)
    requires '\n' in s
    ensures i < |s| && s[i] == '\n' && '\n' !in s[..i]
  {
    if s[0] == '\n' then 0 else 1 + FirstNewline(s[1..])
  }

  /** String.prototype.split('\n'): the pieces between the newlines, empty ones included. */
  function Split(s: string): (pieces: seq<string>)
    ensures |pieces| >= 1
    decreases |s|
  {
    if '\n' !in s then [s]
    else
      var i := FirstNewline(s);
      [s[..i]] + Split(s[i + 1..])
  }

  /** No piece of a split holds a newline. */
  lemma {:induction false} SplitPiecesAreLines(s: string)
    ensures forall i :: 0 <= i < |Split(s)| ==> '\n' !in Split(s)[i]
    decreases |s|
  {
    if '\n' in s {
      var k := FirstNewline(s);
      SplitPiecesAreLines(s[k + 1..]);
      assert forall i :: 1 <= i < |Split(s)| ==> Split(s)[i] == Split(s[k + 1..])[i - 1];
    }
  }

  /** Array.prototype.join('\n'), the inverse of Split. */
  function Join(pieces: seq<string>): string
    requires |pieces| >= 1
  {
    if |pieces| == 1 then pieces[0] else pieces[0] + "\n" + Join(pieces[1..])
  }

  /** Splitting loses nothing: joining the pieces back gives the text. */
  lemma {:induction false} JoinSplit(s: string)
    ensures Join(Split(s)) == s
    decreases |s|
  {
    if '\n' in s {
      var i := FirstNewline(s);
      JoinSplit(s[i + 1..]);
      assert s == s[..i] + "\n" + s[i + 1..];
    }
  }

  /** A newline-free piece followed by '\n' is the first piece of the split. */
  lemma SplitAfterLine(a: string, b: string)
    requires '\n' !in a
    ensures Split(a + "\n" + b) == [a] + Split(b)
  {
    var s := a + "\n" + b;
    assert s[|a|] == '\n';
    assert s[..|a|] == a;
    var i := FirstNewline(s);
    assert s[..i] == a;
    assert s[i + 1..] == b;
  }

  /** The pieces that are not blank, in order (the filter on `line.trim() !== ''`). */
  function NonBlank(pieces: seq<string>): seq<string>
  {
    if pieces == [] then []
    else if Trim(pieces[0]) != [] then [pieces[0]] + NonBlank(pieces[1..])
    else NonBlank(pieces[1..])
  }

  /** The filter keeps a piece exactly when it is not all whitespace. */
  lemma {:induction false} NonBlankFilter(pieces: seq<string>)
    ensures forall x :: x in NonBlank(pieces) <==> x in pieces && !Blank(x)
    decreases |pieces|
  {
    if pieces != [] {
      NonBlankFilter(pieces[1..]);
      TrimEmptyIffBlank(pieces[0]);
      assert pieces == [pieces[0]] + pieces[1..];
    }
  }

  lemma {:induction false} NonBlankAppend(a: seq<string>, b: seq<string>)
    ensures NonBlank(a + b) == NonBlank(a) + NonBlank(b)
  {
    if a == [] {
      assert a + b == b;
    } else {
      assert (a + b)[1..] == a[1..] + b;
      NonBlankAppend(a[1..], b);
    }
  }

  /** The lines the client looks at in one read. */
  function Lines(chunk: string): seq<string>
  {
    NonBlank(Split(chunk))
  }

  lemma DoubleNewline(line: string, rest: string)
    ensures line + "\n\n" + rest == line + "\n" + ("\n" + rest)
  {
  }

  lemma SplitBlankThen(rest: string)
    ensures Split("\n" + rest) == [[]] + Split(rest)
  {
    var empty: string := [];
    assert empty + "\n" + rest == "\n" + rest;
    SplitAfterLine(empty, rest);
  }

  lemma ConsPair(line: string, pieces: seq<string>)
    ensures [line] + ([[]] + pieces) == [line, []] + pieces
  {
  }

  lemma SplitLineThenBlank(line: string, rest: string)
    requires '\n' !in line
    ensures Split(line + "\n\n" + rest) == [line, []] + Split(rest)
  {
    DoubleNewline(line, rest);
    SplitAfterLine(line, "\n" + rest);
    SplitBlankThen(rest);
    ConsPair(line, Split(rest));
  }

  lemma NonBlankLineThenBlank(line: string, pieces: seq<string>)
    requires Trim(line) != []
    ensures NonBlank([line, []] + pieces) == [line] + NonBlank(pieces)
  {
    var empty: string := [];
    var all := [line, empty] + pieces;
    assert all[0] == line && all[1..] == [empty] + pieces;
    assert ([empty] + pieces)[1..] == pieces;
    assert Trim(empty) == [];
  }

  /** A non-blank line, its newline and an empty line, then the rest: the line comes first. */
  lemma LineThenBlankThen(s: string, line: string, rest: string)
    requires s == line + "\n\n" + rest
    requires '\n' !in line && Trim(line) != []
    ensures Lines(s) == [line] + Lines(rest)
  {
    SplitLineThenBlank(line, rest);
    NonBlankLineThenBlank(line, Split(rest));
  }

  lemma LinesOfEmpty()
    ensures Lines([]) == []
  {
    assert Split([]) == [[]];
    assert Trim([]) == [];
  }

  /** Text that starts with something other than whitespace is not blank. */
  lemma StartsNonBlank(line: string)
    requires line != [] && !IsJsWhitespace(line[0])
    ensures Trim(line) != []
  {
    TrimEmptyIffBlank(line);
  }

  /** The lines of a sequence of reads, read by read. */
  function AllLines(received: seq<string>): seq<string>
  {
    if received == [] then [] else Lines(received[0]) + AllLines(received[1..])
  }
}
