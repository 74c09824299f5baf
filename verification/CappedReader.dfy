// Bounded collection of a sandbox's output: a pipe is drained chunk by chunk while only the
// trailing bytes are kept, and the tail is decoded with replacement.

module CappedReader {
  import opened Basics
  import opened Utf8

  const READ_CHUNK := 65536

  /** A pipe delivers at most a chunk at a time. */
  predicate ChunksOk(chunks: seq<seq<byte>>) {
    forall k :: 0 <= k < |chunks| ==> |chunks[k]| <= READ_CHUNK
  }

  /** Everything the pipe delivers before end of file, which reads as an empty chunk. */
  function UntilEof(chunks: seq<seq<byte>>): seq<byte> {
    if chunks == [] || chunks[0] == [] then [] else chunks[0] + UntilEof(chunks[1..])
  }

  function NonNegative(n: int): nat {
    if n < 0 then 0 else n
  }

  /** The last n bytes, or all of them if there are fewer. */
  function Suffix(s: seq<byte>, n: int): (t: seq<byte>)
    ensures |t| == if |s| <= NonNegative(n) then |s| else NonNegative(n)
    ensures t == s[|s| - |t|..]
  {
    if |s| <= NonNegative(n) then s else s[|s| - NonNegative(n)..]
  }

  /** Dropping from the front and appending is appending and then dropping. */
  lemma {:induction false} SuffixAppend(s: seq<byte>, c: seq<byte>, n: int)
    ensures Suffix(Suffix(s, n) + c, n) == Suffix(s + c, n)
  {
    var d := |s| - |Suffix(s, n)|;
    assert Suffix(s, n) + c == (s + c)[d..];
  }

  /** What one read contributes to what is still to come. */
  lemma NextChunk(chunks: seq<seq<byte>>, i: nat, got: seq<byte>)
    requires i <= |chunks| && UntilEof(chunks) == got + UntilEof(chunks[i..])
    ensures i == |chunks| || chunks[i] == [] ==> UntilEof(chunks) == got
    ensures i < |chunks| && chunks[i] != [] ==> UntilEof(chunks) == got + chunks[i] + UntilEof(chunks[i + 1..])
  {
    if i < |chunks| && chunks[i] != [] {
      assert chunks[i..][1..] == chunks[i + 1..];
      assert got + (chunks[i] + UntilEof(chunks[i + 1..])) == got + chunks[i] + UntilEof(chunks[i + 1..]);
    }
  }

  /** The most the buffer holds from the i-th read on, given what it holds before. */
  function Peak(chunks: seq<seq<byte>>, i: nat, held: nat, limit: int): nat
    decreases |chunks| - i
  {
    if i >= |chunks| || chunks[i] == [] then held else
      var grown := held + |chunks[i]|;
      Max(grown, Peak(chunks, i + 1, Min(grown, NonNegative(limit)), limit))
  }

  /** Of all the buffer will ever hold, `peak` accounts for what came before read i. */
  predicate PeakSoFar(chunks: seq<seq<byte>>, i: nat, held: nat, limit: int, peak: nat) {
    peak >= held && Max(peak, Peak(chunks, i, held, limit)) == Peak(chunks, 0, 0, limit)
  }

  lemma PeakStep(chunks: seq<seq<byte>>, i: nat, held: nat, limit: int, peak: nat)
    requires PeakSoFar(chunks, i, held, limit, peak)
    ensures i >= |chunks| || chunks[i] == [] ==> peak == Peak(chunks, 0, 0, limit)
    ensures i < |chunks| && chunks[i] != [] ==>
        var grown := held + |chunks[i]|;
        PeakSoFar(chunks, i + 1, Min(grown, NonNegative(limit)), limit, Max(peak, grown))
  {
  }

  /** The buffer never exceeds the limit and one chunk. */
  lemma {:induction false} PeakIsBounded(chunks: seq<seq<byte>>, i: nat, held: nat, limit: int)
    requires held <= NonNegative(limit) && ChunksOk(chunks)
    ensures Peak(chunks, i, held, limit) <= NonNegative(limit) + READ_CHUNK
    decreases |chunks| - i
  {
    if i < |chunks| && chunks[i] != [] {
      PeakIsBounded(chunks, i + 1, Min(held + |chunks[i]|, NonNegative(limit)), limit);
    }
  }

  /**
   * Drains a pipe given what its successive reads return.  The result is what reading
   * everything and keeping the last `limit` bytes would give, whatever the chunking; `peak`, the
   * most the buffer ever holds, is at most the limit and one chunk.
   */
  method ReadCapped(chunks: seq<seq<byte>>, limit: int) returns (tail: seq<byte>, truncated: bool, ghost peak: nat)
    requires ChunksOk(chunks)
    ensures tail == Suffix(UntilEof(chunks), limit)
    ensures truncated <==> |UntilEof(chunks)| > limit
    ensures peak == Peak(chunks, 0, 0, limit) <= NonNegative(limit) + READ_CHUNK
  {
    var buf: seq<byte> := [];
    var total: nat := 0;
    var i := 0;
    peak := 0;
    PeakIsBounded(chunks, 0, 0, limit);
    ghost var got: seq<byte> := [];
    while i < |chunks|
      invariant 0 <= i <= |chunks|
      invariant UntilEof(chunks) == got + UntilEof(chunks[i..])
      invariant buf == Suffix(got, limit) && total == |got|
      invariant PeakSoFar(chunks, i, |buf|, limit, peak)
    {
      var chunk := chunks[i];
      NextChunk(chunks, i, got);
      PeakStep(chunks, i, |buf|, limit, peak);
      if chunk == [] {
        return buf, total > limit, peak;
      }
      SuffixAppend(got, chunk, limit);
      got := got + chunk;
      total := total + |chunk|;
      buf := buf + chunk;
      peak := Max(peak, |buf|);
      if |buf| > limit {
        var excess := |buf| - limit;
        buf := if excess >= |buf| then [] else buf[excess..];
      }
      i := i + 1;
    }
    NextChunk(chunks, i, got);
    PeakStep(chunks, i, |buf|, limit, peak);
    return buf, total > limit, peak;
  }

  /**
   * The truncation flag says that bytes were dropped, except in one case: with a negative limit
   * and no output at all it is raised although nothing was lost.
   */
  lemma FlagMeansDropped(all: seq<byte>, limit: int)
    ensures (|all| > limit <==> Suffix(all, limit) != all) <==> (limit >= 0 || all != [])
  {
  }

  /**
   * When the full output is well-formed text, decoding its capped tail gives at most three
   * U+FFFD and then a suffix of that text; if nothing was dropped it gives the text itself.
   */
  lemma TailIsSuffixOfText(text: string, limit: int) returns (stray: nat, from: nat)
    ensures stray <= 3 && from <= |text|
    ensures Decode(Suffix(Encode(text), limit)) == Replacements(stray) + text[from..]
    ensures |Encode(text)| <= limit ==> stray == 0 && from == 0
    ensures stray + |Encode(text[from..])| <= NonNegative(limit)
  {
    var all := Encode(text);
    var cut := |all| - |Suffix(all, limit)|;
    if cut == 0 {
      stray, from := 0, 0;
      assert text[0..] == text && all[0..] == all;
      assert Replacements(0) + text == text;
      DecodeEncode(text);
    } else {
      stray, from := DecodeTail(text, cut);
    }
  }
}
