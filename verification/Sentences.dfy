/** Cutting a streamed reply into sentences that can be spoken. */
module Sentences {
  import opened Basics

  const MIN_CHUNK_LENGTH: nat := 8
  const FAILURE := "I encountered an error processing your request."

  predicate IsTerminator(c: char)
  {
    c == '.' || c == '!' || c == '?'
  }

  /** The characters str.strip() removes. */
  predicate IsSpace(c: char)
  {
    var u := c as int;
    || 0x09 <= u <= 0x0D || 0x1C <= u <= 0x20 || u == 0x85 || u == 0xA0 || u == 0x1680
    || 0x2000 <= u <= 0x200A || u == 0x2028 || u == 0x2029 || u == 0x202F || u == 0x205F || u == 0x3000
  }

  function StripLeft(s: string): (r: string)
    ensures |r| <= |s| && s[|s| - |r|..] == r
    ensures forall i :: 0 <= i < |s| - |r| ==> IsSpace(s[i])
    ensures r != [] ==> !IsSpace(r[0])
  {
    if s != [] && IsSpace(s[0]) then StripLeft(s[1..]) else s
  }

  function StripRight(s: string): (r: string)
    ensures |r| <= |s| && s[..|r|] == r
    ensures forall i :: |r| <= i < |s| ==> IsSpace(s[i])
    ensures r != [] ==> !IsSpace(r[|r| - 1])
  {
    if s != [] && IsSpace(s[|s| - 1]) then StripRight(s[..|s| - 1]) else s
  }

  function Strip(s: string): string
  {
    StripRight(StripLeft(s))
  }

  /** The code points of whitespace, one by one. */
  ghost predicate IsWhite(c: char)
  {
    c as int in {
      9, 10, 11, 12, 13, 28, 29, 30, 31, 32, 133, 160, 5760, 8192, 8193, 8194, 8195, 8196, 8197, 8198, 8199, 8200,
      8201, 8202, 8232, 8233, 8239, 8287, 12288
    }
  }

  /** What is stripped is whitespace and nothing else. */
  lemma SpaceIsWhite(c: char)
    ensures IsSpace(c) <==> IsWhite(c)
  {
  }

  ghost predicate AllSpace(s: string)
  {
    forall i :: 0 <= i < |s| ==> IsSpace(s[i])
  }

  lemma StripRightSplit(s: string)
    ensures s == StripRight(s) + s[|StripRight(s)|..] && AllSpace(s[|StripRight(s)|..])
  {
    var n := |StripRight(s)|;
    assert s == s[..n] + s[n..];
  }

  lemma StripLeftSplit(s: string)
    ensures var n := |s| - |StripLeft(s)|;
      s == s[..n] + StripLeft(s) && AllSpace(s[..n])
  {
  }

  /** Stripping loses exactly the whitespace at the two edges. */
  lemma StripLosesOnlyEdges(s: string)
    ensures var inner := StripLeft(s); var left, right := s[..|s| - |inner|], inner[|Strip(s)|..];
      s == left + (Strip(s) + right) && AllSpace(left) && AllSpace(right)
  {
    StripLeftSplit(s);
    StripRightSplit(StripLeft(s));
  }

  lemma StripLeavesNoEdges(s: string)
    requires Strip(s) != []
    ensures !IsSpace(Strip(s)[0]) && !IsSpace(Strip(s)[|Strip(s)| - 1])
  {
    assert Strip(s)[0] == StripLeft(s)[0];
  }

  /** The first terminator at or after `from`: a regex search from that position. */
  function FindTerminator(s: string, from: nat): (r: Option<nat>)
    ensures r.Some? ==> from <= r.value < |s| && IsTerminator(s[r.value])
    ensures forall i :: from <= i < (if r.Some? then r.value else |s|) ==> !IsTerminator(s[i])
    decreases |s| - from
  {
    if from >= |s| then None else if IsTerminator(s[from]) then Some(from) else FindTerminator(s, from + 1)
  }

  /** The pieces a text is cut into, unstripped, and the text left over. */
  function Cut(s: string): (r: (seq<string>, string))
    decreases |s|
  {
    match FindTerminator(s, MIN_CHUNK_LENGTH)
    case None => ([], s)
    case Some(i) => var (pieces, rest) := Cut(s[i + 1..]); ([s[..i + 1]] + pieces, rest)
  }

  function StripAll(pieces: seq<string>): (r: seq<string>)
    ensures |r| == |pieces| && forall i :: 0 <= i < |r| ==> r[i] == Strip(pieces[i])
  {
    seq(|pieces|, i requires 0 <= i < |pieces| => Strip(pieces[i]))
  }

  function Join(pieces: seq<string>): string
  {
    if pieces == [] then "" else Join(pieces[..|pieces| - 1]) + pieces[|pieces| - 1]
  }

  lemma {:induction false} JoinCons(p: string, pieces: seq<string>)
    ensures Join([p] + pieces) == p + Join(pieces)
  {
    if pieces == [] {
      assert ([p] + pieces)[..0] == [];
    } else {
      assert ([p] + pieces)[..|pieces|] == [p] + pieces[..|pieces| - 1];
      JoinCons(p, pieces[..|pieces| - 1]);
    }
  }

  /** No full stop, exclamation mark or question mark at index eight or later. */
  ghost predicate Unended(s: string)
  {
    forall i :: 8 <= i < |s| ==> s[i] !in {'.', '!', '?'}
  }

  /** A piece is at least nine characters and ends at its first such mark. */
  ghost predicate IsPiece(p: string)
  {
    |p| >= 9 && p[|p| - 1] in {'.', '!', '?'} && Unended(p[..|p| - 1])
  }

  /** One cut. */
  lemma CutFirst(s: string, i: nat)
    requires FindTerminator(s, MIN_CHUNK_LENGTH) == Some(i)
    ensures IsPiece(s[..i + 1]) && s == s[..i + 1] + s[i + 1..]
    ensures Cut(s) == ([s[..i + 1]] + Cut(s[i + 1..]).0, Cut(s[i + 1..]).1)
  {
  }

  /** Cutting loses nothing, cuts only where it should, and leaves no piece behind. */
  lemma {:induction false} CutIsExact(s: string)
    ensures Join(Cut(s).0) + Cut(s).1 == s
    ensures forall i :: 0 <= i < |Cut(s).0| ==> IsPiece(Cut(s).0[i])
    ensures Unended(Cut(s).1)
    decreases |s|
  {
    match FindTerminator(s, MIN_CHUNK_LENGTH)
    case None =>
    case Some(i) =>
      var head, tail := s[..i + 1], s[i + 1..];
      var pieces, rest := Cut(tail).0, Cut(tail).1;
      assert IsPiece(head) && s == head + tail && Cut(s) == ([head] + pieces, rest) by { CutFirst(s, i); }
      CutIsExact(tail);
      JoinCons(head, pieces);
      Associative(head, Join(pieces), rest);
  }

  /** A terminator already found stays the first one when more text arrives. */
  lemma FoundStays(a: string, b: string, i: nat)
    requires FindTerminator(a, MIN_CHUNK_LENGTH) == Some(i)
    ensures FindTerminator(a + b, MIN_CHUNK_LENGTH) == Some(i)
  {
    assert forall k :: 0 <= k < |a| ==> (a + b)[k] == a[k];
  }

  /** Cutting as text arrives: the left-over with more text behind it yields just the new pieces. */
  lemma {:induction false} CutAppend(a: string, b: string)
    ensures Cut(a + b).0 == Cut(a).0 + Cut(Cut(a).1 + b).0
    ensures Cut(a + b).1 == Cut(Cut(a).1 + b).1
    decreases |a|
  {
    match FindTerminator(a, MIN_CHUNK_LENGTH)
    case None =>
    case Some(i) =>
      var head, tail := a[..i + 1], a[i + 1..];
      assert Cut(a) == ([head] + Cut(tail).0, Cut(tail).1) by { CutFirst(a, i); }
      assert Cut(a + b) == ([head] + Cut(tail + b).0, Cut(tail + b).1) by {
        FoundStays(a, b, i);
        CutFirst(a + b, i);
        assert (a + b)[..i + 1] == head && (a + b)[i + 1..] == tail + b;
      }
      CutAppend(tail, b);
      Associative([head], Cut(tail).0, Cut(Cut(tail).1 + b).0);
  }

  /** _extract_sentences: repeatedly cuts a sentence off the front of the buffer. */
  method ExtractSentences(text: string) returns (sentences: seq<string>, rest: string)
    ensures sentences == StripAll(Cut(text).0) && rest == Cut(text).1
  {
    var buffer := text;
    ghost var pieces: seq<string> := [];
    sentences := [];
    while true
      invariant pieces + Cut(buffer).0 == Cut(text).0 && Cut(buffer).1 == Cut(text).1
      invariant sentences == StripAll(pieces)
      decreases |buffer|
    {
      if |buffer| < MIN_CHUNK_LENGTH {
        break;
      }
      var found := FindTerminator(buffer, MIN_CHUNK_LENGTH);
      if found.None? {
        break;
      }
      var end := found.value + 1;
      sentences := sentences + [Strip(buffer[..end])];
      pieces := pieces + [buffer[..end]];
      buffer := buffer[end..];
    }
    assert Cut(buffer) == ([], buffer);
    rest := buffer;
  }

  /** The whole reply, tokens put back together. */
  function TextOf(tokens: seq<string>): string
  {
    if tokens == [] then "" else TextOf(tokens[..|tokens| - 1]) + tokens[|tokens| - 1]
  }

  /** What is said for a reply, from its text alone. */
  function Spoken(text: string, broken: bool): seq<string>
  {
    var (pieces, rest) := Cut(text);
    StripAll(pieces) +
      (if broken then [FAILURE]
       else if |Strip(rest)| >= MIN_CHUNK_LENGTH then [Strip(rest)] else [])
  }

  lemma TokenArrives(text: string, token: string, pieces: seq<string>, buffer: string)
    requires Cut(text) == (pieces, buffer)
    ensures Cut(text + token) == (pieces + Cut(buffer + token).0, Cut(buffer + token).1)
  {
    CutAppend(text, token);
  }

  lemma StripAllAppend(a: seq<string>, b: seq<string>)
    ensures StripAll(a + b) == StripAll(a) + StripAll(b)
  {
  }

  /**
   * The buffering loop of generate_stream: what is yielded depends only on
   * the text, not on how it was split into tokens. `broken` is a stream that
   * raises after these tokens.
   */
  method GenerateStream(tokens: seq<string>, broken: bool) returns (yielded: seq<string>)
    ensures yielded == Spoken(TextOf(tokens), broken)
  {
    var buffer := "";
    ghost var pieces: seq<string> := [];
    yielded := [];
    for k := 0 to |tokens|
      invariant Cut(TextOf(tokens[..k])) == (pieces, buffer)
      invariant yielded == StripAll(pieces)
    {
      ghost var text := TextOf(tokens[..k]);
      assert TextOf(tokens[..k + 1]) == text + tokens[k] by { assert tokens[..k + 1][..k] == tokens[..k]; }
      if tokens[k] == "" {
        assert text + tokens[k] == text;
        continue;
      }
      TokenArrives(text, tokens[k], pieces, buffer);
      var sentences, rest := ExtractSentences(buffer + tokens[k]);
      StripAllAppend(pieces, Cut(buffer + tokens[k]).0);
      yielded := yielded + sentences;
      pieces := pieces + Cut(buffer + tokens[k]).0;
      buffer := rest;
    }
    assert tokens[..|tokens|] == tokens;
    if broken {
      yielded := yielded + [FAILURE];
    } else if Strip(buffer) != "" && |Strip(buffer)| >= MIN_CHUNK_LENGTH {
      yielded := yielded + [Strip(buffer)];
    }
  }

  /** What is said of a piece of text, with the whitespace around it. */
  datatype Loss = Loss(left: string, right: string)

  /** `piece` is `said` with the whitespace of `loss` at its edges, and no more could be stripped. */
  ghost predicate SaidOf(piece: string, said: string, loss: Loss)
  {
    && piece == loss.left + (said + loss.right) && AllSpace(loss.left) && AllSpace(loss.right)
    && (said != [] ==> !IsSpace(said[0]) && !IsSpace(said[|said| - 1]))
  }

  function EdgesOf(piece: string): Loss
  {
    var inner := StripLeft(piece);
    Loss(piece[..|piece| - |inner|], inner[|Strip(piece)|..])
  }

  lemma StripLosesEdges(piece: string)
    ensures SaidOf(piece, Strip(piece), EdgesOf(piece))
  {
    StripLosesOnlyEdges(piece);
    if Strip(piece) != [] { StripLeavesNoEdges(piece); }
  }

  lemma AllLoseEdges(pieces: seq<string>, losses: seq<Loss>)
    requires |losses| == |pieces| && forall i :: 0 <= i < |pieces| ==> losses[i] == EdgesOf(pieces[i])
    ensures forall i :: 0 <= i < |pieces| ==> SaidOf(pieces[i], Strip(pieces[i]), losses[i])
  {
    forall i | 0 <= i < |pieces| ensures SaidOf(pieces[i], Strip(pieces[i]), losses[i]) {
      StripLosesEdges(pieces[i]);
    }
  }

  /** What is said, entry by entry. */
  lemma SpokenParts(text: string)
    ensures var spoken := Spoken(text, false); var (pieces, rest) := Cut(text);
      && |spoken| == |pieces| + (if |Strip(rest)| >= 8 then 1 else 0)
      && (forall i :: 0 <= i < |pieces| ==> spoken[i] == Strip(pieces[i]))
      && (|Strip(rest)| >= 8 ==> spoken[|pieces|] == Strip(rest))
  {
  }

  /**
   * What becomes of the text of a reply that is not cut off: it is pieces and
   * a left-over; each piece is said less the whitespace at its edges; and the
   * left-over is said likewise, or is lost with fewer than eight characters
   * in it once stripped.
   */
  lemma ReplyIsSpoken(text: string) returns (pieces: seq<string>, losses: seq<Loss>, rest: string, last: Loss)
    ensures text == Join(pieces) + rest && |losses| == |pieces| && Unended(rest)
    ensures var spoken := Spoken(text, false);
      && |pieces| <= |spoken| <= |pieces| + 1
      && (forall i :: 0 <= i < |pieces| ==> IsPiece(pieces[i]) && SaidOf(pieces[i], spoken[i], losses[i]))
      && (|spoken| == |pieces| + 1 ==> SaidOf(rest, spoken[|pieces|], last) && |spoken[|pieces|]| >= 8)
      && (|spoken| == |pieces| ==> SaidOf(rest, Strip(rest), last) && |Strip(rest)| < 8)
  {
    CutIsExact(text);
    SpokenParts(text);
    pieces, rest := Cut(text).0, Cut(text).1;
    losses := seq(|pieces|, i requires 0 <= i < |pieces| => EdgesOf(pieces[i]));
    last := EdgesOf(rest);
    AllLoseEdges(pieces, losses);
    StripLosesEdges(rest);
  }

  /**
   * A reply that breaks off: every piece that was complete is said as before,
   * what is left over is dropped, and the failure sentence comes last.
   */
  lemma BrokenReplySaysSo(text: string) returns (pieces: seq<string>, losses: seq<Loss>, rest: string)
    ensures text == Join(pieces) + rest && |losses| == |pieces| && Unended(rest)
    ensures var spoken := Spoken(text, true);
      && |spoken| == |pieces| + 1
      && (forall i :: 0 <= i < |pieces| ==> IsPiece(pieces[i]) && SaidOf(pieces[i], spoken[i], losses[i]))
      && spoken[|pieces|] == "I encountered an error processing your request."
  {
    CutIsExact(text);
    pieces, rest := Cut(text).0, Cut(text).1;
    losses := seq(|pieces|, i requires 0 <= i < |pieces| => EdgesOf(pieces[i]));
    AllLoseEdges(pieces, losses);
  }
}
