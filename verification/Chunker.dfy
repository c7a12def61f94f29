/**
 The fixed-size token chunker (services/doc-processor/src/chunker.py): a sliding window
 of `size` tokens moved by `step = max(1, size - overlap)`.
 */
module Chunker {
  import opened Identity

  type Token = int

  /** The tokenizer is foreign code: a pair of functions, with no law assumed. */
  datatype Encoding = Encoding(encode: string -> seq<Token>, decode: seq<Token> -> string)

  datatype Chunk = Chunk(text: string, index: nat, docId: string, tokenCount: nat) {
    function Id(): string {
      ChunkId(docId, index)
    }
  }

  function Step(size: int, overlap: int): (d: nat)
    ensures d >= 1
    ensures size >= 1 && overlap >= 0 <==> d <= size
  {
    if size - overlap >= 1 then size - overlap else 1
  }

  /** How many windows the loop produces for n tokens: 1 + ceil(max(0, n - s) / d). */
  function WindowCount(n: nat, size: nat, step: nat): nat
    requires size >= 1 && step >= 1
  {
    if n == 0 then 0
    else if n <= size then 1
    else 1 + (n - size + step - 1) / step
  }

  function WindowEnd(n: nat, size: nat, start: nat): nat {
    if start + size < n then start + size else n
  }

  /** The i-th window of a token sequence. */
  function Window(tokens: seq<Token>, size: nat, step: nat, i: nat): (w: seq<Token>)
    requires i * step <= |tokens|
    ensures |w| == WindowEnd(|tokens|, size, i * step) - i * step
  {
    tokens[i * step..WindowEnd(|tokens|, size, i * step)]
  }

  // ---- Where the windows fall ----

  /**
   Exactly the last window reaches the end of the text: every earlier one stops short of it,
   and no window starts behind it.
   */
  lemma WindowsReachEndOnce(n: nat, size: nat, step: nat, i: nat)
    requires 1 <= step <= size
    requires i < WindowCount(n, size, step)
    ensures i * step < n
    ensures i * step + size < n <==> i + 1 < WindowCount(n, size, step)
  {
    var k := WindowCount(n, size, step);
    if n > size {
      var q := (n - size + step - 1) / step;
      assert k == 1 + q;
      assert q * step <= n - size + step - 1 < q * step + step;
      if i + 1 < k {
        MulMonotone(i + 1, q, step);
        assert (i + 1) * step == i * step + step;
      } else {
        assert i == q;
      }
    }
  }

  lemma MulSucc(a: int, b: int)
    ensures (a + 1) * b == a * b + b
  {}

  lemma MulMonotone(a: nat, b: nat, c: nat)
    requires a <= b
    ensures a * c <= b * c
  {
    assert b * c == a * c + (b - a) * c;
    assert 0 <= (b - a) * c;
  }

  function Windows(tokens: seq<Token>, size: nat, step: nat): (ws: seq<seq<Token>>)
    requires 1 <= step <= size
    ensures |ws| == WindowCount(|tokens|, size, step)
  {
    seq(WindowCount(|tokens|, size, step), i requires 0 <= i < WindowCount(|tokens|, size, step) =>
      WindowsReachEndOnce(|tokens|, size, step, i);
      Window(tokens, size, step, i))
  }

  // ---- The loop of FixedSizeChunker.chunk, for any settings ----

  /** Python's `tokens[lo:hi]`: a negative hi counts from the end. */
  function Slice(tokens: seq<Token>, lo: nat, hi: int): seq<Token> {
    var h := if hi < 0 then hi + |tokens| else if hi < |tokens| then hi else |tokens|;
    if lo < h then tokens[lo..h] else []
  }

  function Min(a: int, b: int): int {
    if a < b then a else b
  }

  function LoopWindows(tokens: seq<Token>, size: int, step: nat, start: nat): seq<seq<Token>>
    requires step >= 1
    decreases |tokens| - start
  {
    if start >= |tokens| then []
    else
      var end := Min(start + size, |tokens|);
      [Slice(tokens, start, end)] + if end == |tokens| then [] else LoopWindows(tokens, size, step, start + step)
  }

  function ChunkOf(enc: Encoding, window: seq<Token>, index: nat, docId: string): Chunk {
    Chunk(enc.decode(window), index, docId, |window|)
  }

  /** The chunks of a text: what the loop below is proved to return. */
  function Chunks(enc: Encoding, size: int, overlap: int, text: string, docId: string): (chunks: seq<Chunk>)
    ensures forall i :: 0 <= i < |chunks| ==> chunks[i].index == i && chunks[i].docId == docId
  {
    var ws := LoopWindows(enc.encode(text), size, Step(size, overlap), 0);
    seq(|ws|, i requires 0 <= i < |ws| => ChunkOf(enc, ws[i], i, docId))
  }

  /** With a positive size and no negative overlap the loop produces the windows described above. */
  lemma {:induction false} LoopFrom(tokens: seq<Token>, size: nat, step: nat, i: nat)
    requires 1 <= step <= size && i < WindowCount(|tokens|, size, step)
    ensures LoopWindows(tokens, size, step, i * step) == Windows(tokens, size, step)[i..]
    decreases WindowCount(|tokens|, size, step) - i
  {
    var ws := Windows(tokens, size, step);
    WindowsReachEndOnce(|tokens|, size, step, i);
    assert ws[i] == Slice(tokens, i * step, Min(i * step + size, |tokens|));
    if i + 1 < |ws| {
      LoopFrom(tokens, size, step, i + 1);
      MulSucc(i, step);
      assert ws[i..] == [ws[i]] + ws[i + 1..];
    }
  }

  lemma LoopIsWindows(tokens: seq<Token>, size: nat, step: nat)
    requires 1 <= step <= size
    ensures LoopWindows(tokens, size, step, 0) == Windows(tokens, size, step)
  {
    if |tokens| > 0 {
      LoopFrom(tokens, size, step, 0);
      assert Windows(tokens, size, step)[0..] == Windows(tokens, size, step);
    }
  }

  class FixedSizeChunker {
    const size: int
    const overlap: int
    const enc: Encoding

    constructor (size: int, overlap: int, enc: Encoding)
      ensures this.size == size && this.overlap == overlap && this.enc == enc
    {
      this.size := size;
      this.overlap := overlap;
      this.enc := enc;
    }

    method ChunkText(text: string, docId: string) returns (chunks: seq<Chunk>)
      ensures chunks == Chunks(enc, size, overlap, text, docId)
    {
      var tokens := enc.encode(text);
      if |tokens| == 0 {
        return [];
      }
      var step := Step(size, overlap);
      ghost var ws := LoopWindows(tokens, size, step, 0);
      chunks := [];
      var start, index := 0, 0;
      while start < |tokens|
        invariant index == |chunks| && Made(enc, ws, docId, chunks)
        invariant Remain(tokens, size, step, start, ws, index)
        decreases |tokens| - start
      {
        var end := Min(start + size, |tokens|);
        var chunkTokens := Slice(tokens, start, end);
        OneWindow(enc, tokens, size, step, start, ws, docId, chunks);
        chunks := chunks + [ChunkOf(enc, chunkTokens, index, docId)];
        index := index + 1;
        if end == |tokens| {
          break;
        }
        start := start + step;
      }
      AllMade(enc, size, overlap, text, docId, chunks);
    }
  }

  /** The chunks of the first windows. */
  ghost predicate Made(enc: Encoding, ws: seq<seq<Token>>, docId: string, chunks: seq<Chunk>) {
    |chunks| <= |ws| && forall i :: 0 <= i < |chunks| ==> chunks[i] == ChunkOf(enc, ws[i], i, docId)
  }

  /** The windows still to come, none once the start has passed the end. */
  ghost predicate Remain(tokens: seq<Token>, size: int, step: nat, start: nat, ws: seq<seq<Token>>, index: nat)
    requires step >= 1
  {
    && index <= |ws| && ws[index..] == LoopWindows(tokens, size, step, start)
    && (start >= |tokens| ==> index == |ws|)
  }

  lemma OneWindow(
    enc: Encoding, tokens: seq<Token>, size: int, step: nat, start: nat,
    ws: seq<seq<Token>>, docId: string, chunks: seq<Chunk>)
    requires step >= 1 && start < |tokens|
    requires Made(enc, ws, docId, chunks) && Remain(tokens, size, step, start, ws, |chunks|)
    ensures var end := Min(start + size, |tokens|);
            var more := chunks + [ChunkOf(enc, Slice(tokens, start, end), |chunks|, docId)];
            && Made(enc, ws, docId, more)
            && (if end == |tokens| then |more| == |ws| else Remain(tokens, size, step, start + step, ws, |more|))
  {
    var index := |chunks|;
    assert ws[index..][0] == ws[index] == Slice(tokens, start, Min(start + size, |tokens|));
    assert ws[index + 1..] == ws[index..][1..];
  }

  lemma AllMade(enc: Encoding, size: int, overlap: int, text: string, docId: string, chunks: seq<Chunk>)
    requires var ws := LoopWindows(enc.encode(text), size, Step(size, overlap), 0);
             Made(enc, ws, docId, chunks) && |chunks| == |ws|
    ensures chunks == Chunks(enc, size, overlap, text, docId)
  {}

  /** With a positive size and no negative overlap, the chunks are the windows, numbered from 0. */
  lemma ChunksAreWindows(enc: Encoding, size: nat, overlap: nat, text: string, docId: string)
    requires size >= 1
    ensures var ws := Windows(enc.encode(text), size, Step(size, overlap));
            var chunks := Chunks(enc, size, overlap, text, docId);
            |chunks| == |ws| && forall i :: 0 <= i < |ws| ==> chunks[i] == ChunkOf(enc, ws[i], i, docId)
  {
    LoopIsWindows(enc.encode(text), size, Step(size, overlap));
  }

  // ---- What the windows mean ----

  /** The first `step` tokens of each window but the last (all of a shorter one), then the whole last window. */
  function Stitch(ws: seq<seq<Token>>, step: nat): seq<Token> {
    if |ws| == 0 then []
    else if |ws| == 1 then ws[0]
    else ws[0][..Min(step, |ws[0]|)] + Stitch(ws[1..], step)
  }

  lemma FullWindows(tokens: seq<Token>, size: nat, step: nat)
    requires 1 <= step <= size
    ensures forall i :: 0 <= i < |Windows(tokens, size, step)| - 1 ==> |Windows(tokens, size, step)[i]| == size
  {
    forall i | 0 <= i < |Windows(tokens, size, step)| - 1
      ensures |Windows(tokens, size, step)[i]| == size
    {
      WindowsReachEndOnce(|tokens|, size, step, i);
    }
  }

  lemma {:induction false} StitchFrom(tokens: seq<Token>, size: nat, step: nat, i: nat)
    requires 1 <= step <= size
    requires i < WindowCount(|tokens|, size, step)
    requires forall j :: 0 <= j < |Windows(tokens, size, step)| - 1 ==> |Windows(tokens, size, step)[j]| == size
    ensures i * step <= |tokens|
    ensures Stitch(Windows(tokens, size, step)[i..], step) == tokens[i * step..]
    decreases WindowCount(|tokens|, size, step) - i
  {
    var ws := Windows(tokens, size, step);
    WindowsReachEndOnce(|tokens|, size, step, i);
    assert ws[i..][0] == Window(tokens, size, step, i);
    if i + 1 < |ws| {
      StitchFrom(tokens, size, step, i + 1);
      assert ws[i..][1..] == ws[i + 1..];
      MulSucc(i, step);
      assert Min(step, |ws[i]|) == step && ws[i][..step] == tokens[i * step..i * step + step];
      assert Stitch(ws[i..], step) == ws[i][..step] + Stitch(ws[i + 1..], step);
      assert tokens[i * step..] == tokens[i * step..i * step + step] + tokens[(i + 1) * step..];
    }
  }

  /** Nothing is lost and nothing is reordered: the windows give the text back. */
  lemma WindowsReconstruct(tokens: seq<Token>, size: nat, step: nat)
    requires 1 <= step <= size
    ensures forall i :: 0 <= i < |Windows(tokens, size, step)| - 1 ==> |Windows(tokens, size, step)[i]| == size
    ensures Stitch(Windows(tokens, size, step), step) == tokens
  {
    FullWindows(tokens, size, step);
    var ws := Windows(tokens, size, step);
    if |tokens| > 0 {
      StitchFrom(tokens, size, step, 0);
      assert ws[0..] == ws && tokens[0 * step..] == tokens;
    }
  }

  /**
   When the chunks of every text hold the whole text: exactly for a positive size and no negative overlap. Otherwise the
   loop ends all the same, but leaves tokens out.
   */
  lemma ReconstructsIff(size: int, overlap: int)
    ensures (forall tokens :: Stitch(LoopWindows(tokens, size, Step(size, overlap), 0), Step(size, overlap)) == tokens)
            <==> size >= 1 && overlap >= 0
  {
    var step := Step(size, overlap);
    if size >= 1 && overlap >= 0 {
      forall tokens ensures Stitch(LoopWindows(tokens, size, step, 0), step) == tokens {
        LoopIsWindows(tokens, size, step);
        WindowsReconstruct(tokens, size, step);
      }
    } else {
      var n: nat := if size >= 1 then size + 1 else 1;
      var tokens: seq<Token> := seq(n, _ => 0);
      var end := Min(size, n);
      assert LoopWindows(tokens, size, step, step) == [];
      assert LoopWindows(tokens, size, step, 0) == [Slice(tokens, 0, end)];
      assert |Slice(tokens, 0, end)| < n;
    }
  }

  function TotalTokens(ws: seq<seq<Token>>): nat {
    if |ws| == 0 then 0 else |ws[0]| + TotalTokens(ws[1..])
  }

  lemma {:induction false} TotalFrom(tokens: seq<Token>, size: nat, step: nat, i: nat)
    requires 1 <= step <= size
    requires i < WindowCount(|tokens|, size, step)
    ensures TotalTokens(Windows(tokens, size, step)[i..])
         == |tokens| - i * step + (WindowCount(|tokens|, size, step) - 1 - i) * (size - step)
    decreases WindowCount(|tokens|, size, step) - i
  {
    var ws := Windows(tokens, size, step);
    WindowsReachEndOnce(|tokens|, size, step, i);
    assert ws[i..][0] == Window(tokens, size, step, i);
    assert ws[i..][1..] == ws[i + 1..];
    if i + 1 < |ws| {
      TotalFrom(tokens, size, step, i + 1);
      MulSucc(i, step);
      MulSucc(|ws| - 2 - i, size - step);
      assert |ws[i]| == size;
    }
  }

  /** The duplicated tokens are exactly the overlap, once per window after the first. */
  lemma TokenTotal(tokens: seq<Token>, size: nat, step: nat)
    requires 1 <= step <= size
    requires |tokens| > 0
    ensures TotalTokens(Windows(tokens, size, step))
         == |tokens| + (WindowCount(|tokens|, size, step) - 1) * (size - step)
  {
    TotalFrom(tokens, size, step, 0);
    assert Windows(tokens, size, step)[0..] == Windows(tokens, size, step);
  }

  /** Both ends move strictly forward, so no window lies inside another. */
  lemma NoWindowContainsAnother(n: nat, size: nat, step: nat, i: nat, j: nat)
    requires 1 <= step <= size
    requires i < j < WindowCount(n, size, step)
    ensures i * step < j * step
    ensures WindowEnd(n, size, i * step) < WindowEnd(n, size, j * step)
  {
    WindowsReachEndOnce(n, size, step, i);
    WindowsReachEndOnce(n, size, step, j);
    MulMonotone(i + 1, j, step);
    assert (i + 1) * step == i * step + step;
  }
}
