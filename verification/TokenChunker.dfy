/** Chunks of whole words, and the entry point that chooses the unit (api/chunker.py). */
module TokenChunker {
  import opened Outcomes
  import opened Words
  import opened Chunker

  function Min(a: int, b: int): int {
    if a < b then a else b
  }

  /** The windows over `n` words from `start` on. */
  function WordWindows(n: nat, size: nat, overlap: int, start: nat): (ws: seq<Span>)
    requires size >= 1 && overlap < size
    ensures forall i | 0 <= i < |ws| :: ws[i].lo < ws[i].hi <= n
    decreases n - start
  {
    if start >= n then []
    else
      var end := if start + size < n then start + size else n;
      [Span(start, end)] + if end >= n then [] else WordWindows(n, size, overlap, end - overlap)
  }

  function WordText(words: seq<string>, w: Span): string
    requires w.lo < w.hi <= |words|
  {
    Join(words[w.lo..w.hi])
  }

  function Texts(words: seq<string>, windows: seq<Span>): (chunks: seq<Chunk>)
    requires forall i | 0 <= i < |windows| :: windows[i].lo < windows[i].hi <= |words|
    ensures |chunks| == |windows|
    ensures forall i | 0 <= i < |chunks| :: chunks[i] == Chunk(WordText(words, windows[i]), i)
  {
    seq(|windows|, i requires 0 <= i < |windows| => Chunk(WordText(words, windows[i]), i))
  }

  /** What `_chunk_by_tokens` returns. */
  function TokenChunks(text: string, size: nat, overlap: int): seq<Chunk>
    requires size >= 1 && overlap < size
  {
    var words := Split(text);
    if |words| <= size then [Chunk(text, 0)] else Texts(words, WordWindows(|words|, size, overlap, 0))
  }

  lemma WindowHasWords(words: seq<string>, w: Span)
    requires w.lo < w.hi <= |words| && forall v | v in words :: IsWord(v)
    ensures Split(WordText(words, w)) == words[w.lo..w.hi] && !Blank(WordText(words, w))
  {
    var part := words[w.lo..w.hi];
    forall v | v in part
      ensures IsWord(v)
    {
    }
    SplitJoin(part);
    BlankIffNoWords(Join(part));
  }

  ghost predicate SoFar(words: seq<string>, size: nat, overlap: int, done: seq<Span>, start: nat, chunks: seq<Chunk>)
    requires size >= 1 && overlap < size
  {
    && (forall i | 0 <= i < |done| :: done[i].lo < done[i].hi <= |words|)
    && WordWindows(|words|, size, overlap, 0) == done + WordWindows(|words|, size, overlap, start)
    && chunks == Texts(words, done)
  }

  lemma NothingSoFar(words: seq<string>, size: nat, overlap: int)
    requires size >= 1 && overlap < size
    ensures SoFar(words, size, overlap, [], 0, [])
  {
    var all := WordWindows(|words|, size, overlap, 0);
    assert all == [] + all;
  }

  lemma AllSoFar(text: string, size: nat, overlap: int, done: seq<Span>, start: nat, chunks: seq<Chunk>)
    requires size >= 1 && overlap < size && size < |Split(text)| <= start
    requires SoFar(Split(text), size, overlap, done, start, chunks)
    ensures chunks == TokenChunks(text, size, overlap) && WordChunks(Split(text), size, overlap, chunks)
  {
    assert done + [] == done;
    ChunksAt(Split(text), size, overlap);
    hide WordChunks, Split;
  }

  lemma FewWords(text: string, size: nat, overlap: int)
    requires size >= 1 && overlap < size && |Split(text)| <= size
    ensures TokenChunks(text, size, overlap) == [Chunk(text, 0)]
  {
  }

  lemma OneMoreWindow(words: seq<string>, size: nat, overlap: int, done: seq<Span>, start: nat, end: nat,
                      chunks: seq<Chunk>)
    requires size >= 1 && overlap < size && SoFar(words, size, overlap, done, start, chunks) && start < |words|
    requires end == if start + size < |words| then start + size else |words|
    ensures SoFar(words, size, overlap, done + [Span(start, end)], if end >= |words| then |words| else end - overlap,
                  chunks + [Chunk(Join(words[start..end]), |chunks|)])
  {
    var w := Span(start, end);
    var next: nat := if end >= |words| then |words| else end - overlap;
    var rest := WordWindows(|words|, size, overlap, next);
    assert WordWindows(|words|, size, overlap, start) == [w] + rest;
    hide WordWindows, Join, Texts;
    Regrouped(done, w, rest);
    TextsAppended(words, done, w);
  }

  lemma TextsAppended(words: seq<string>, done: seq<Span>, w: Span)
    requires forall i | 0 <= i < |done| :: done[i].lo < done[i].hi <= |words|
    requires w.lo < w.hi <= |words|
    ensures Texts(words, done + [w]) == Texts(words, done) + [Chunk(WordText(words, w), |done|)]
  {
    hide WordText;
  }

  /** Each chunk begins a size less the overlap after the one before it. */
  ghost predicate WordChunks(words: seq<string>, size: nat, overlap: int, chunks: seq<Chunk>)
    requires overlap < size
  {
    forall k: nat | k < |chunks| :: WordChunk(words, (size - overlap) * k, size, chunks[k], k)
  }

  ghost predicate WordChunk(words: seq<string>, lo: int, size: nat, chunk: Chunk, k: nat) {
    && 0 <= lo < |words|
    && chunk == Chunk(Join(words[lo..if lo + size < |words| then lo + size else |words|]), k)
  }

  lemma {:induction false} WindowsAt(n: nat, size: nat, overlap: int, start: nat, k: nat)
    requires size >= 1 && overlap < size && k < |WordWindows(n, size, overlap, start)|
    ensures var w, lo := WordWindows(n, size, overlap, start)[k], start + (size - overlap) * k;
            w.lo == lo && w.hi == if lo + size < n then lo + size else n
    decreases k
  {
    if k > 0 {
      var step := size - overlap;
      WindowsAt(n, size, overlap, start + step, k - 1);
      assert start + step + step * (k - 1) == start + step * k;
    }
  }

  lemma ChunksAt(words: seq<string>, size: nat, overlap: int)
    requires size >= 1 && overlap < size
    ensures WordChunks(words, size, overlap, Texts(words, WordWindows(|words|, size, overlap, 0)))
  {
    var ws := WordWindows(|words|, size, overlap, 0);
    var chunks := Texts(words, ws);
    forall k: nat | k < |chunks| ensures WordChunk(words, (size - overlap) * k, size, chunks[k], k) {
      WindowsAt(|words|, size, overlap, 0, k);
      hide WordWindows, Join;
    }
  }

  /** `_chunk_by_tokens`. */
  method ChunkByTokens(text: string, size: nat, overlap: int) returns (chunks: seq<Chunk>)
    requires size >= 1 && overlap < size
    ensures chunks == TokenChunks(text, size, overlap)
    ensures if |Split(text)| <= size then chunks == [Chunk(text, 0)] else WordChunks(Split(text), size, overlap, chunks)
  {
    hide *;
    var words := Split(text);
    if |words| <= size {
      FewWords(text, size, overlap);
      return [Chunk(text, 0)];
    }
    chunks := [];
    var start, idx := 0, 0;
    ghost var done: seq<Span> := [];
    NothingSoFar(words, size, overlap);
    while start < |words|
      invariant SoFar(words, size, overlap, done, start, chunks) && idx == |chunks|
      decreases |words| - start
    {
      var end := if start + size < |words| then start + size else |words|;
      var chunk := Join(words[start..end]);
      ghost var next: nat := if end >= |words| then |words| else end - overlap;
      OneMoreWindow(words, size, overlap, done, start, end, chunks);
      WindowIsText(text, start, end);
      if !Blank(chunk) {
        chunks := chunks + [Chunk(chunk, idx)];
        idx := idx + 1;
      }
      done := done + [Span(start, end)];
      assert SoFar(words, size, overlap, done, next, chunks);
      if end >= |words| {
        AllSoFar(text, size, overlap, done, next, chunks);
        return;
      }
      start := end - overlap;
    }
    AllSoFar(text, size, overlap, done, start, chunks);
  }

  lemma WindowIsText(text: string, start: nat, end: nat)
    requires start < end <= |Split(text)|
    ensures !Blank(Join(Split(text)[start..end]))
  {
    hide Blank;
    WindowHasWords(Split(text), Span(start, end));
  }

  // ---------------------------------------------------------------------- nothing lost, nothing doubled

  /** Each window begins `overlap` words before the end of the one before it. */
  ghost predicate Overlapping(ws: seq<Span>, overlap: nat) {
    forall i | 0 < i < |ws| :: ws[i].lo + overlap == ws[i - 1].hi <= ws[i].hi
  }

  lemma OverlappingPrepended(w: Span, ws: seq<Span>, overlap: nat)
    requires Overlapping(ws, overlap) && ws != [] && ws[0].lo + overlap == w.hi <= ws[0].hi
    ensures Overlapping([w] + ws, overlap)
  {
    var all := [w] + ws;
    forall i | 0 < i < |all|
      ensures all[i].lo + overlap == all[i - 1].hi <= all[i].hi
    {
      assert all[i] == ws[i - 1];
    }
  }

  lemma {:induction false} WordWindowsTile(n: nat, size: nat, overlap: nat, start: nat)
    requires overlap < size && start < n
    ensures var ws := WordWindows(n, size, overlap, start);
            && ws != [] && ws[0].lo == start && ws[0].hi == Min(start + size, n) && ws[|ws| - 1].hi == n
            && Overlapping(ws, overlap)
    decreases n - start
  {
    if start + size < n {
      var rest := WordWindows(n, size, overlap, start + size - overlap);
      WordWindowsTile(n, size, overlap, start + size - overlap);
      assert WordWindows(n, size, overlap, start) == [Span(start, start + size)] + rest;
      hide WordWindows;
      OverlappingPrepended(Span(start, start + size), rest, overlap);
    }
  }

  /** The words of the first chunk, then those of each later chunk after its first `overlap`. */
  function Rejoined(chunks: seq<Chunk>, overlap: nat): seq<string> {
    if chunks == [] then []
    else
      var last := Split(chunks[|chunks| - 1].text);
      if |chunks| == 1 then last
      else Rejoined(chunks[..|chunks| - 1], overlap) + if overlap <= |last| then last[overlap..] else []
  }

  lemma Joined(words: seq<string>, from: nat, mid: nat, to: nat)
    requires from <= mid <= to <= |words|
    ensures words[..mid] + words[from..to][mid - from..] == words[..to]
  {
  }

  lemma RejoinedAppended(chunks: seq<Chunk>, k: nat, overlap: nat)
    requires 0 < k < |chunks|
    ensures var last := Split(chunks[k].text);
            Rejoined(chunks[..k + 1], overlap)
            == Rejoined(chunks[..k], overlap) + if overlap <= |last| then last[overlap..] else []
  {
    assert chunks[..k + 1][..k] == chunks[..k];
  }

  lemma {:induction false} RejoinedUpTo(words: seq<string>, ws: seq<Span>, overlap: nat, k: nat)
    requires forall v | v in words :: IsWord(v)
    requires forall i | 0 <= i < |ws| :: ws[i].lo < ws[i].hi <= |words|
    requires Overlapping(ws, overlap) && k < |ws| && ws[0].lo == 0
    ensures Rejoined(Texts(words, ws)[..k + 1], overlap) == words[..ws[k].hi]
  {
    var chunks := Texts(words, ws);
    WindowHasWords(words, ws[k]);
    hide WordText, Split, IsWord;
    if k > 0 {
      RejoinedUpTo(words, ws, overlap, k - 1);
      RejoinedAppended(chunks, k, overlap);
      hide Rejoined;
      Joined(words, ws[k].lo, ws[k - 1].hi, ws[k].hi);
    } else {
      assert chunks[..1] == [chunks[0]];
      assert words[0..ws[0].hi] == words[..ws[0].hi];
    }
  }

  /** Putting the chunks back together gives exactly the words of the text, each once. */
  lemma TokenRoundTrip(text: string, size: nat, overlap: nat)
    requires size >= 1 && overlap < size
    ensures Rejoined(TokenChunks(text, size, overlap), overlap) == Split(text)
  {
    var words := Split(text);
    if |words| > size {
      var ws := WordWindows(|words|, size, overlap, 0);
      WordWindowsTile(|words|, size, overlap, 0);
      RejoinedUpTo(words, ws, overlap, |ws| - 1);
      assert Texts(words, ws)[..|ws|] == Texts(words, ws);
      assert words[..|words|] == words;
    }
  }

  function CeilDiv(a: nat, d: nat): nat
    requires d >= 1
  {
    (a + d - 1) / d
  }

  lemma CeilDivIs(a: nat, d: nat)
    requires d >= 1
    ensures (CeilDiv(a, d) - 1) * d < a + (if a == 0 then 1 else 0) && a <= CeilDiv(a, d) * d
  {
    var q, r := (a + d - 1) / d, (a + d - 1) % d;
    assert q * d + r == a + d - 1;
    assert (q - 1) * d == q * d - d;
  }

  lemma Multiples(k: int, d: int)
    requires d >= 1
    ensures k >= 1 ==> k * d >= d
    ensures k <= -1 ==> k * d <= -d
  {
  }

  lemma OneMoreStep(a: nat, d: nat)
    requires d >= 1
    ensures (a + d) / d == a / d + 1
  {
    var q, r := a / d, a % d;
    var p, s := (a + d) / d, (a + d) % d;
    assert p * d + s == q * d + r + d;
    assert (p - q - 1) * d == p * d - q * d - d;
    Multiples(p - q - 1, d);
  }

  lemma CeilDivSteps(a: nat, d: nat)
    requires d >= 1 && a >= 1
    ensures CeilDiv(a, d) == 1 + if a > d then CeilDiv(a - d, d) else 0
  {
    OneMoreStep(a - 1, d);
    if a <= d {
      assert (a - 1) / d == 0;
    }
  }

  lemma {:induction false} WordWindowCount(n: nat, size: nat, overlap: nat, start: nat)
    requires overlap < size && start < n
    ensures |WordWindows(n, size, overlap, start)|
            == 1 + CeilDiv(if n > start + size then n - start - size else 0, size - overlap)
    decreases n - start
  {
    var step := size - overlap;
    if start + size < n {
      WordWindowCount(n, size, overlap, start + step);
      hide CeilDiv;
      CeilDivSteps(n - start - size, step);
      NothingLeft(step);
    } else {
      NothingLeft(step);
    }
  }

  lemma NothingLeft(d: nat)
    requires d >= 1
    ensures CeilDiv(0, d) == 0
  {
    assert (d - 1) / d == 0;
  }

  /** How many chunks there are: one, and one for every started step past the first window. */
  lemma TokenChunkCount(text: string, size: nat, overlap: nat)
    requires size >= 1 && overlap < size && size < |Split(text)|
    ensures |TokenChunks(text, size, overlap)| == 1 + CeilDiv(|Split(text)| - size, size - overlap)
    ensures var step, left := size - overlap, |Split(text)| - size;
            (|TokenChunks(text, size, overlap)| - 2) * step < left <= (|TokenChunks(text, size, overlap)| - 1) * step
  {
    CeilDivIs(|Split(text)| - size, size - overlap);
    hide Split, CeilDiv;
    WordWindowCount(|Split(text)|, size, overlap, 0);
  }

  // ---------------------------------------------------------------------- the entry point

  datatype Unit = Chars | Tokens

  /** `chunk_text`. */
  method ChunkText(text: string, size: nat, overlap: int, unit: Unit)
    returns (result: Option<seq<Chunk>>, ghost turns: nat)
    requires size >= 1 && overlap < size && (unit.Chars? ==> Stops(text, size, overlap))
    ensures Blank(text) ==> result == Some([])
    ensures !Blank(text) && unit.Tokens? ==> result == Some(TokenChunks(text, size, overlap))
    ensures !Blank(text) && unit.Chars? ==>
              && !After(text, size, overlap, turns).At?
              && result == if FirstWindowBlank(text, size) then None else Some(ChunksAfter(text, size, overlap, turns))
    ensures !Blank(text) && unit.Chars? && result.Some? && Allowed(size, overlap) ==>
              result.value == CharChunks(text, size, overlap)
    ensures result.Some? && result.value == [] ==> Blank(text)
  {
    hide FirstWindowBlank, Split;
    if Blank(text) {
      return Some([]), 0;
    }
    if unit.Tokens? {
      var chunks := ChunkByTokens(text, size, overlap);
      SomeChunk(text, size, overlap);
      return Some(chunks), 0;
    }
    ghost var windows, picks;
    result, turns, windows, picks := ChunkByChars(text, size, overlap);
    if result.Some? {
      SomeCharChunk(text, size, overlap, turns);
    }
  }

  lemma SomeChunk(text: string, size: nat, overlap: int)
    requires size >= 1 && overlap < size
    ensures TokenChunks(text, size, overlap) != []
  {
  }

  lemma SomeCharChunk(text: string, size: nat, overlap: int, turns: nat)
    requires size >= 1 && !Blank(text) && !FirstWindowBlank(text, size) && !After(text, size, overlap, turns).At?
    ensures ChunksAfter(text, size, overlap, turns) != []
  {
    if size < |text| {
      FirstCut(text, size, overlap, turns);
      WindowBounds(text, size, 0);
      var ws := Cut(text, size, overlap, turns);
      var first := ws[0];
      PiecesFit(text, ws);
      hide Cut, WindowEnd, IsSpace;
      var p :| first.lo <= p < first.hi && !IsSpace(text[first.lo..first.hi][p]);
      assert InSome(ws, p);
      PiecesKeep(text, ws, p);
    }
  }

  lemma {:induction false} FirstCut(text: string, size: nat, overlap: int, turns: nat)
    requires 1 <= size < |text| && turns >= 1
    ensures var ws := Cut(text, size, overlap, turns);
            ws != [] && ws[0] == Span(0, WindowEnd(text, size, 0))
  {
    hide WindowEnd;
    if turns > 1 {
      FirstCut(text, size, overlap, turns - 1);
    } else {
      assert After(text, size, overlap, 0) == At(0);
    }
  }
}
