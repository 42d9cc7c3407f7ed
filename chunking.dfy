/**
 * `split_message`: cutting an AI answer into messages of at most
 * `max_length` characters, preferably at a line break.
 */
module Chunking {
  import opened Text

  /** The default `max_length`, under Telegram's message size limit. */
  const DefaultMaxLength: nat := 4000

  /** Where the next chunk ends: the last line break before `maxLength`, else `maxLength` itself. */
  function CutPoint(text: string, maxLength: nat): (k: nat)
    requires 1 <= maxLength < |text|
    ensures k <= maxLength
  {
    var splitAt := RFind(text, '\n', maxLength);
    if splitAt == -1 then maxLength else splitAt
  }

  /** What is left to cut after one chunk, shorter than before. */
  function Remainder(text: string, maxLength: nat): (rest: string)
    requires 1 <= maxLength < |text|
    ensures |rest| < |text|
  {
    var k := CutPoint(text, maxLength);
    assert k == 0 ==> IsSpace(text[k..][0]) && LeadingSpace(text[k..]) > 0;
    LStrip(text[k..])
  }

  /** The chunks `split_message` returns, defined one cut at a time. */
  function Chunks(text: string, maxLength: nat): (chunks: seq<string>)
    requires maxLength >= 1
    ensures |chunks| >= 1
    decreases |text|
  {
    if |text| <= maxLength then [text]
    else [text[..CutPoint(text, maxLength)]] + Chunks(Remainder(text, maxLength), maxLength)
  }

  method SplitMessage(text: string, maxLength: nat) returns (chunks: seq<string>)
    requires maxLength >= 1
    ensures chunks == Chunks(text, maxLength)
  {
    chunks := [];
    var rest := text;
    ghost var all := Chunks(text, maxLength);
    assert chunks + Chunks(rest, maxLength) == all;
    while |rest| > maxLength
      invariant chunks + Chunks(rest, maxLength) == all
      decreases |rest|
    {
      ChunksStep(chunks, rest, maxLength);
      var splitAt := CutPoint(rest, maxLength);
      chunks := chunks + [rest[..splitAt]];
      rest := LStrip(rest[splitAt..]);
    }
    LastChunk(chunks, rest, text, maxLength);
    assert chunks + [rest] == all;
    chunks := chunks + [rest];
  }

  /** One step of `Chunks` on a text longer than `maxLength`. */
  lemma ChunksUnfold(text: string, maxLength: nat)
    requires 1 <= maxLength < |text|
    ensures |LStrip(text[CutPoint(text, maxLength)..])| < |text|
    ensures Chunks(text, maxLength)
      == [text[..CutPoint(text, maxLength)]] + Chunks(LStrip(text[CutPoint(text, maxLength)..]), maxLength)
  {
    assert Remainder(text, maxLength) == LStrip(text[CutPoint(text, maxLength)..]);
  }

  /** Appending the next chunk to those already cut keeps the whole result. */
  lemma ChunksStep(done: seq<string>, text: string, maxLength: nat)
    requires 1 <= maxLength < |text|
    ensures var k := CutPoint(text, maxLength);
      && |LStrip(text[k..])| < |text|
      && done + Chunks(text, maxLength) == (done + [text[..k]]) + Chunks(LStrip(text[k..]), maxLength)
  {
    ChunksUnfold(text, maxLength);
    var k := CutPoint(text, maxLength);
    assert done + ([text[..k]] + Chunks(LStrip(text[k..]), maxLength))
      == (done + [text[..k]]) + Chunks(LStrip(text[k..]), maxLength);
  }

  /** A remainder that fits is the last chunk. */
  lemma LastChunk(done: seq<string>, rest: string, text: string, maxLength: nat)
    requires 1 <= maxLength && |rest| <= maxLength
    requires done + Chunks(rest, maxLength) == Chunks(text, maxLength)
    ensures done + [rest] == Chunks(text, maxLength)
  {
    assert Chunks(rest, maxLength) == [rest];
  }

  /** There is always at least one chunk, and none is longer than `maxLength`. */
  lemma {:induction false} ChunksBounded(text: string, maxLength: nat)
    requires maxLength >= 1
    ensures var chunks := Chunks(text, maxLength);
      |chunks| >= 1 && forall i :: 0 <= i < |chunks| ==> |chunks[i]| <= maxLength
    decreases |text|
  {
    if |text| > maxLength {
      ChunksBounded(Remainder(text, maxLength), maxLength);
    }
  }

  /** A text that fits is sent as it is, in one message. */
  lemma ShortTextOneChunk(text: string, maxLength: nat)
    requires 1 <= maxLength && |text| <= maxLength
    ensures Chunks(text, maxLength) == [text]
  {
  }

  /** The cut is at the last line break before `maxLength`, or at `maxLength` when there is none. */
  lemma CutPointIsLastBreak(text: string, maxLength: nat)
    requires 1 <= maxLength < |text|
    ensures var k := CutPoint(text, maxLength);
      && (k < maxLength ==> text[k] == '\n' && forall i :: k < i < maxLength ==> text[i] != '\n')
      && (k == maxLength ==> forall i :: 0 <= i < maxLength ==> text[i] != '\n')
  {
    RFindLast(text, '\n', maxLength);
  }

  /** The first chunk of a long text ends at its last line break before `maxLength`, or at `maxLength`. */
  lemma FirstChunkCut(text: string, maxLength: nat)
    requires 1 <= maxLength < |text|
    ensures var first := Chunks(text, maxLength)[0];
      && text == first + text[|first|..]
      && ((exists j :: 0 <= j < maxLength && text[j] == '\n') ==>
            |first| < maxLength && text[|first|] == '\n' &&
            forall i :: |first| < i < maxLength ==> text[i] != '\n')
      && ((forall j :: 0 <= j < maxLength ==> text[j] != '\n') ==> |first| == maxLength)
  {
    var k := CutPoint(text, maxLength);
    ChunksUnfold(text, maxLength);
    assert Chunks(text, maxLength)[0] == text[..k];
    assert text == text[..k] + text[k..];
    CutPointIsLastBreak(text, maxLength);
    if k == maxLength {
      assert forall j :: 0 <= j < maxLength ==> text[j] != '\n';
    } else {
      assert text[k] == '\n';
    }
  }

  /**
   * A long text that starts with a line break and has no other one before
   * `maxLength` yields an empty first chunk: the cut falls at position 0.
   */
  lemma LeadingBreakGivesEmptyChunk(text: string, maxLength: nat)
    requires 1 <= maxLength < |text|
    requires text[0] == '\n' && forall i :: 0 < i < maxLength ==> text[i] != '\n'
    ensures Chunks(text, maxLength)[0] == ""
  {
    CutPointIsLastBreak(text, maxLength);
    assert CutPoint(text, maxLength) == 0;
  }

  /** Whether every character of `s` is whitespace. */
  predicate AllSpace(s: string) {
    forall i :: 0 <= i < |s| ==> IsSpace(s[i])
  }

  /** The whitespace `lstrip` drops at each cut, one string per cut. */
  function Gaps(text: string, maxLength: nat): seq<string>
    requires maxLength >= 1
    decreases |text|
  {
    if |text| <= maxLength then []
    else
      var tail := text[CutPoint(text, maxLength)..];
      [tail[..LeadingSpace(tail)]] + Gaps(Remainder(text, maxLength), maxLength)
  }

  /** The chunks with the gaps put back between them. */
  function Weave(chunks: seq<string>, gaps: seq<string>): string
    requires |chunks| == |gaps| + 1
    decreases |gaps|
  {
    if gaps == [] then chunks[0] else chunks[0] + gaps[0] + Weave(chunks[1..], gaps[1..])
  }

  /** What `lstrip` drops is whitespace. */
  lemma DroppedIsSpace(s: string)
    ensures AllSpace(s[..LeadingSpace(s)])
  {
    var n := LeadingSpace(s);
    LeadingSpaceSpan(s);
    assert forall i :: 0 <= i < n ==> s[..n][i] == s[i];
  }

  /** One cut: the text is the first chunk, the whitespace dropped, and the remainder. */
  lemma CutSplitsText(text: string, maxLength: nat)
    requires 1 <= maxLength < |text|
    ensures var tail := text[CutPoint(text, maxLength)..];
      text == text[..CutPoint(text, maxLength)] + tail[..LeadingSpace(tail)] + Remainder(text, maxLength)
  {
    var k := CutPoint(text, maxLength);
    ThreeSlices(text, k, LeadingSpace(text[k..]));
  }

  /** A string is the concatenation of three consecutive slices of it. */
  lemma ThreeSlices(s: string, k: nat, n: nat)
    requires k <= |s| && n <= |s| - k
    ensures s == s[..k] + s[k..][..n] + s[k..][n..]
  {
    var head, gap, rest := s[..k], s[k..][..n], s[k..][n..];
    assert gap + rest == s[k..];
    assert head + s[k..] == s;
    assert head + gap + rest == head + (gap + rest);
  }

  /**
   * The chunks are consecutive slices of the text: put back together with
   * the dropped gaps between them they give the text, and every gap is
   * whitespace. So nothing inside a chunk is lost, and only whitespace right
   * after a cut is dropped.
   */
  lemma {:induction false} ChunksReassemble(text: string, maxLength: nat)
    requires maxLength >= 1
    ensures var chunks, gaps := Chunks(text, maxLength), Gaps(text, maxLength);
      && |chunks| == |gaps| + 1
      && Weave(chunks, gaps) == text
      && forall i :: 0 <= i < |gaps| ==> AllSpace(gaps[i])
    decreases |text|
  {
    if |text| > maxLength {
      var k := CutPoint(text, maxLength);
      var rest := Remainder(text, maxLength);
      var gap := text[k..][..LeadingSpace(text[k..])];
      var chunks, gaps := Chunks(text, maxLength), Gaps(text, maxLength);
      CutSplitsText(text, maxLength);
      DroppedIsSpace(text[k..]);
      ChunksReassemble(rest, maxLength);
      assert chunks == [text[..k]] + Chunks(rest, maxLength);
      assert gaps == [gap] + Gaps(rest, maxLength);
      assert chunks[1..] == Chunks(rest, maxLength) && gaps[1..] == Gaps(rest, maxLength);
      assert Weave(chunks, gaps) == text[..k] + gap + rest;
      forall i | 0 <= i < |gaps|
        ensures AllSpace(gaps[i])
      {
        if i > 0 {
          assert gaps[i] == Gaps(rest, maxLength)[i - 1];
        }
      }
    }
  }
}
