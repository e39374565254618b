/**
 Overlapping chunks of a text by characters (api/chunker.py): windows that end at a paragraph or a
 sentence where one ends in their last fifth. Windows of words are in TokenChunker.
 */
module Chunker {
  import opened Outcomes
  import opened Words

  const PARAGRAPH: string := "\n\n"
  const SENTENCES: seq<string> := [". ", "! ", "? ", ".\n", "!\n", "?\n"]

  datatype Chunk = Chunk(text: string, index: nat)

  datatype Span = Span(lo: nat, hi: nat)

  ghost predicate Stands(text: string, pat: string, p: int) {
    0 <= p <= |text| - |pat| && text[p..p + |pat|] == pat
  }

  ghost predicate AnyStands(text: string, pats: seq<string>, p: int) {
    exists i | 0 <= i < |pats| :: Stands(text, pats[i], p)
  }

  /** Python's `str.rfind`: the last place in `lo..hi` where the pattern stands, or -1. */
  function RFind(text: string, pat: string, lo: nat, hi: nat): (r: int)
    requires hi <= |text|
    ensures r == -1 || (lo <= r <= hi - |pat| && Stands(text, pat, r))
    ensures forall p | lo <= p <= hi - |pat| && r < p :: !Stands(text, pat, p)
    decreases hi
  {
    if hi < lo + |pat| then -1
    else if text[hi - |pat|..hi] == pat then hi - |pat|
    else if hi == 0 then -1
    else RFind(text, pat, lo, hi - 1)
  }

  /** The last place where any of the patterns stands. */
  function LastOf(text: string, pats: seq<string>, lo: nat, hi: nat): (r: int)
    requires hi <= |text|
    ensures r >= -1
  {
    if pats == [] then -1
    else
      var best := LastOf(text, pats[..|pats| - 1], lo, hi);
      var pos := RFind(text, pats[|pats| - 1], lo, hi);
      if pos > best then pos else best
  }

  lemma AnyStandsAppended(text: string, pats: seq<string>, pat: string, p: int)
    ensures AnyStands(text, pats + [pat], p) <==> AnyStands(text, pats, p) || Stands(text, pat, p)
  {
    var all := pats + [pat];
    if AnyStands(text, pats, p) {
      var i :| 0 <= i < |pats| && Stands(text, pats[i], p);
      assert all[i] == pats[i];
    }
    assert all[|pats|] == pat;
  }

  lemma {:induction false} LastOfIsLast(text: string, pats: seq<string>, lo: nat, hi: nat)
    requires hi <= |text| && forall i | 0 <= i < |pats| :: |pats[i]| == 2
    ensures var r := LastOf(text, pats, lo, hi);
            && (r == -1 || (lo <= r <= hi - 2 && AnyStands(text, pats, r)))
            && forall p | lo <= p <= hi - 2 && r < p :: !AnyStands(text, pats, p)
  {
    if pats != [] {
      var front, pat := pats[..|pats| - 1], pats[|pats| - 1];
      assert pats == front + [pat];
      LastOfIsLast(text, front, lo, hi);
      forall p
        ensures AnyStands(text, pats, p) <==> AnyStands(text, front, p) || Stands(text, pat, p)
      {
        AnyStandsAppended(text, front, pat, p);
      }
    }
  }

  /** Where the last fifth of a window begins. */
  function Tail(size: nat): nat {
    4 * size / 5
  }

  /** Where the window that begins at `start` ends. */
  function WindowEnd(text: string, size: nat, start: nat): nat
    requires start < |text|
  {
    if start + size >= |text| then |text|
    else
      var from, full := start + Tail(size), start + size;
      var paragraph := RFind(text, PARAGRAPH, from, full);
      if paragraph > from then paragraph + 2
      else
        var sentence := LastOf(text, SENTENCES, from, full);
        if sentence > from then sentence + 2 else full
  }

  /** One of the patterns stands in the last fifth of the window, past its first place. */
  ghost predicate BreakAt(text: string, pats: seq<string>, size: nat, start: nat, p: int) {
    4 * size < 5 * (p - start) && p + 2 <= start + size && AnyStands(text, pats, p)
  }

  lemma TailIs(size: nat, x: int)
    ensures Tail(size) < x <==> 4 * size < 5 * x
  {
  }

  ghost predicate HasBreak(text: string, pats: seq<string>, size: nat, start: nat) {
    exists p :: BreakAt(text, pats, size, start, p)
  }

  /** The window ends right after the last break of this kind. */
  ghost predicate EndsAfterLast(text: string, pats: seq<string>, size: nat, start: nat, end: int) {
    && BreakAt(text, pats, size, start, end - 2)
    && forall p | BreakAt(text, pats, size, start, p) :: p + 2 <= end
  }

  lemma LastBreakFound(text: string, pats: seq<string>, size: nat, start: nat)
    requires start + size <= |text| && forall i | 0 <= i < |pats| :: |pats[i]| == 2
    ensures var r := LastOf(text, pats, start + Tail(size), start + size);
            if HasBreak(text, pats, size, start)
            then EndsAfterLast(text, pats, size, start, r + 2) && r > start + Tail(size)
            else r <= start + Tail(size)
  {
    hide LastOf, AnyStands, Tail, RFind, Stands;
    var r := LastOf(text, pats, start + Tail(size), start + size);
    LastOfIsLast(text, pats, start + Tail(size), start + size);
    forall p | BreakAt(text, pats, size, start, p) ensures start + Tail(size) < p {
      TailIs(size, p - start);
    }
    TailIs(size, r - start);
    if r > start + Tail(size) {
      assert BreakAt(text, pats, size, start, r);
    }
  }

  lemma LastOfOne(text: string, pat: string, lo: nat, hi: nat)
    requires hi <= |text|
    ensures LastOf(text, [pat], lo, hi) == RFind(text, pat, lo, hi)
  {
    assert [pat][..0] == [];
  }

  lemma PatternLengths()
    ensures |PARAGRAPH| == 2 && forall i | 0 <= i < |SENTENCES| :: |SENTENCES[i]| == 2
  {
  }

  lemma ShortRest(text: string, size: nat, start: nat)
    requires start < |text| <= start + size
    ensures WindowEnd(text, size, start) == |text|
  {
  }

  lemma WindowEndCases(text: string, size: nat, start: nat)
    requires start + size < |text|
    ensures var from, full := start + Tail(size), start + size;
            var paragraph, sentence := RFind(text, PARAGRAPH, from, full), LastOf(text, SENTENCES, from, full);
            WindowEnd(text, size, start)
            == if paragraph > from then paragraph + 2 else if sentence > from then sentence + 2 else full
  {
  }

  /** The window from `start` on ends here: after its best break, or where the text or a whole size is over. */
  ghost predicate EndsRight(text: string, size: nat, start: nat, end: int) {
    var paragraph, sentences := ["\n\n"], [". ", "! ", "? ", ".\n", "!\n", "?\n"];
    if start + size >= |text| then end == |text|
    else if HasBreak(text, paragraph, size, start) then EndsAfterLast(text, paragraph, size, start, end)
    else if HasBreak(text, sentences, size, start) then EndsAfterLast(text, sentences, size, start, end)
    else end == start + size
  }

  /**
   The end of a window, told by the text: after the last paragraph break of the last fifth if there is
   one, else after its last sentence break, else a whole size on; and always the end of a short rest.
   */
  lemma WindowEndIsBest(text: string, size: nat, start: nat)
    requires start < |text|
    ensures EndsRight(text, size, start, WindowEnd(text, size, start))
  {
    hide WindowEnd, HasBreak, EndsAfterLast, Tail, RFind, LastOf;
    if start + size >= |text| {
      ShortRest(text, size, start);
    } else {
      PatternLengths();
      WindowEndCases(text, size, start);
      LastOfOne(text, PARAGRAPH, start + Tail(size), start + size);
      LastBreakFound(text, [PARAGRAPH], size, start);
      LastBreakFound(text, SENTENCES, size, start);
    }
  }

  lemma WindowBounds(text: string, size: nat, start: nat)
    requires start < |text| && size >= 1
    ensures var end := WindowEnd(text, size, start);
            && start < end <= |text| && end <= start + size
            && (end == |text| || end == start + size || end >= start + Tail(size) + 3)
            && (start + size < |text| ==> end < |text|)
  {
    WindowEndIsBest(text, size, start);
  }

  // ---------------------------------------------------------------------- when the character loop ends

  /** Where the next window begins: `overlap` before the end, except that it never falls back to the beginning. */
  function NextStart(end: nat, overlap: int): nat {
    if end - overlap <= 0 then end else end - overlap
  }

  datatype Progress = At(start: nat) | Finished | Crashed

  /** One turn of the loop. The chunk list is empty only while the first window is being cut. */
  function Turn(text: string, size: nat, overlap: int, start: nat): Progress {
    if start >= |text| then Finished
    else
      var end := WindowEnd(text, size, start);
      if end >= |text| then Finished
      else if start == 0 && Blank(text[0..end]) then Crashed
      else At(NextStart(end, overlap))
  }

  function After(text: string, size: nat, overlap: int, turns: nat): Progress {
    if turns == 0 then At(0)
    else
      var before := After(text, size, overlap, turns - 1);
      if before.At? then Turn(text, size, overlap, before.start) else before
  }

  ghost predicate Stops(text: string, size: nat, overlap: int) {
    exists turns :: !After(text, size, overlap, turns).At?
  }

  /** The overlaps with which every window begins after the one before it. */
  predicate Allowed(size: nat, overlap: int) {
    size >= 1 && overlap < size && overlap <= Tail(size) + 2
  }

  lemma TurnAdvances(text: string, size: nat, overlap: int, start: nat)
    requires Allowed(size, overlap) && Turn(text, size, overlap, start).At?
    ensures start < Turn(text, size, overlap, start).start
  {
    WindowBounds(text, size, start);
  }

  lemma {:induction false} AfterAdvances(text: string, size: nat, overlap: int, turns: nat)
    requires Allowed(size, overlap) && After(text, size, overlap, turns).At?
    ensures turns <= After(text, size, overlap, turns).start
  {
    hide Turn;
    if turns > 0 {
      var before := After(text, size, overlap, turns - 1);
      AfterAdvances(text, size, overlap, turns - 1);
      TurnAdvances(text, size, overlap, before.start);
    }
  }

  lemma AllowedStops(text: string, size: nat, overlap: int)
    requires Allowed(size, overlap)
    ensures Stops(text, size, overlap)
  {
    if After(text, size, overlap, |text|).At? {
      AfterAdvances(text, size, overlap, |text|);
      assert !After(text, size, overlap, |text| + 1).At?;
    }
  }

  /** No break but one full stop, at the end of the first window. */
  function OneStop(size: nat): string
    requires size >= 2
  {
    seq(2 * size, i => if i == size - 2 then '.' else if i == size - 1 then ' ' else 'x')
  }

  lemma SentenceEnds(i: nat)
    requires i < |SENTENCES|
    ensures |SENTENCES[i]| == 2 && SENTENCES[i][0] in {'.', '!', '?'}
  {
  }

  lemma FirstLetter(text: string, pat: string, p: int)
    requires Stands(text, pat, p) && |pat| == 2
    ensures 0 <= p < |text| && text[p] == pat[0]
  {
    assert text[p..p + 2][0] == text[p];
  }

  lemma OneBreak(size: nat, p: int)
    requires size >= 2
    ensures AnyStands(OneStop(size), SENTENCES, p) <==> p == size - 2
    ensures !AnyStands(OneStop(size), [PARAGRAPH], p)
  {
    var text := OneStop(size);
    hide Stands;
    if AnyStands(text, SENTENCES, p) {
      var i :| 0 <= i < |SENTENCES| && Stands(text, SENTENCES[i], p);
      SentenceEnds(i);
      FirstLetter(text, SENTENCES[i], p);
    }
    if Stands(text, PARAGRAPH, p) {
      FirstLetter(text, PARAGRAPH, p);
    }
    OneStopStands(size);
  }

  lemma OneStopStands(size: nat)
    requires size >= 2
    ensures AnyStands(OneStop(size), SENTENCES, size - 2)
  {
    assert OneStop(size)[size - 2..size] == ". ";
    assert Stands(OneStop(size), SENTENCES[0], size - 2);
  }

  lemma OneStopWindow(size: nat, start: nat)
    requires start + Tail(size) < size - 2 && start + size <= 2 * size
    ensures WindowEnd(OneStop(size), size, start) == size
  {
    var text := OneStop(size);
    forall p
      ensures AnyStands(text, SENTENCES, p) <==> p == size - 2
      ensures !AnyStands(text, [PARAGRAPH], p)
    {
      OneBreak(size, p);
    }
    hide AnyStands, OneStop, WindowEnd, Tail;
    WindowEndIsBest(text, size, start);
    assert BreakAt(text, SENTENCES, size, start, size - 2);
  }

  lemma {:induction false} OneStopStays(size: nat, overlap: int, turns: nat)
    requires Tail(size) + 2 < overlap < size
    ensures After(OneStop(size), size, overlap, turns) == At(if turns == 0 then 0 else size - overlap)
  {
    if turns > 0 {
      var text := OneStop(size);
      var start := if turns == 1 then 0 else size - overlap;
      OneStopStays(size, overlap, turns - 1);
      OneStopWindow(size, start);
      SpaceFacts();
      assert text[..size][0] == 'x';
    }
  }

  /**
   The validation of pipelines lets any overlap below the size through. Exactly those of at most four
   fifths of the size plus two make the loop end on every text.
   */
  lemma StopsOnEveryTextIff(size: nat, overlap: int)
    requires size >= 1 && overlap < size
    ensures (forall text :: Stops(text, size, overlap)) <==> 5 * (overlap - 2) <= 4 * size
  {
    TailIs(size, overlap - 2);
    if overlap <= Tail(size) + 2 {
      forall text
        ensures Stops(text, size, overlap)
      {
        AllowedStops(text, size, overlap);
      }
    } else {
      forall turns: nat
        ensures After(OneStop(size), size, overlap, turns).At?
      {
        OneStopStays(size, overlap, turns);
      }
      assert !Stops(OneStop(size), size, overlap);
    }
  }

  // ---------------------------------------------------------------------- the windows and their chunks

  ghost predicate Fits(text: string, w: Span) {
    w.lo <= w.hi <= |text|
  }

  /** All windows from `start` on. */
  function Windows(text: string, size: nat, overlap: int, start: nat): (ws: seq<Span>)
    requires Allowed(size, overlap)
    ensures forall i | 0 <= i < |ws| :: Fits(text, ws[i]) && start <= ws[i].lo
    decreases |text| - start
  {
    if start >= |text| then []
    else
      WindowBounds(text, size, start);
      var end := WindowEnd(text, size, start);
      [Span(start, end)] + if end >= |text| then [] else Windows(text, size, overlap, NextStart(end, overlap))
  }

  /** A window without the whitespace at its ends. */
  function Stripped(text: string, w: Span): (s: Span)
    requires Fits(text, w)
    ensures Fits(text, s)
  {
    var piece := text[w.lo..w.hi];
    TrimFacts(piece);
    if Leading(piece) == |piece| then Span(w.lo, w.lo)
    else Span(w.lo + Leading(piece), w.hi - Trailing(piece))
  }

  /** The chunks: the stripped windows that are not blank. */
  function Pieces(text: string, windows: seq<Span>): seq<Span>
    requires forall i | 0 <= i < |windows| :: Fits(text, windows[i])
  {
    if windows == [] then []
    else
      var last := Stripped(text, windows[|windows| - 1]);
      Pieces(text, windows[..|windows| - 1]) + if last.lo < last.hi then [last] else []
  }

  /** Inside the window, not blank at either end, and holding every character that is not whitespace. */
  ghost predicate IsPieceOf(text: string, piece: Span, w: Span) {
    && w.lo <= piece.lo < piece.hi <= w.hi <= |text|
    && !IsSpace(text[piece.lo]) && !IsSpace(text[piece.hi - 1])
    && forall p | w.lo <= p < w.hi && !IsSpace(text[p]) :: piece.lo <= p < piece.hi
  }

  lemma StrippedIsPiece(text: string, w: Span)
    requires Fits(text, w)
    ensures var s := Stripped(text, w);
            if Blank(text[w.lo..w.hi]) then s.lo == s.hi else IsPieceOf(text, s, w)
  {
    hide IsSpace, Leading, Trailing, Blank;
    var piece := text[w.lo..w.hi];
    TrimFacts(piece);
    forall p | w.lo <= p < w.hi
      ensures text[p] == piece[p - w.lo]
    {
    }
  }

  /** The next window begins the overlap before the end of this one; only one as long as all before is ignored. */
  ghost predicate BeginsAfter(overlap: int, hi: nat, lo: int) {
    if overlap < hi then hi - lo == overlap else lo == hi
  }

  /** The next window: `overlap` characters are shared, both ends move on. */
  ghost predicate Follows(overlap: int, a: Span, b: Span) {
    && BeginsAfter(overlap, a.hi, b.lo)
    && a.lo < b.lo && a.hi < b.hi
  }

  lemma WindowsUnfold(text: string, size: nat, overlap: int, start: nat)
    requires Allowed(size, overlap) && start < |text|
    ensures var end := WindowEnd(text, size, start);
            && start < end <= |text|
            && (end < |text| ==> Windows(text, size, overlap, start)
                                 == [Span(start, end)] + Windows(text, size, overlap, NextStart(end, overlap)))
            && (end == |text| ==> Windows(text, size, overlap, start) == [Span(start, end)])
  {
    WindowBounds(text, size, start);
    hide WindowEnd;
    assert [Span(start, |text|)] + [] == [Span(start, |text|)];
  }

  lemma NextFollows(text: string, size: nat, overlap: int, start: nat)
    requires Allowed(size, overlap) && 0 <= overlap && start < |text| && WindowEnd(text, size, start) < |text|
    ensures var end := WindowEnd(text, size, start);
            var next := NextStart(end, overlap);
            next < |text| && Follows(overlap, Span(start, end), Span(next, WindowEnd(text, size, next)))
  {
    WindowBounds(text, size, start);
    WindowBounds(text, size, NextStart(WindowEnd(text, size, start), overlap));
    hide WindowEnd;
  }

  /** No window is empty or longer than the size, and they follow each other. */
  ghost predicate Tiles(size: nat, overlap: int, ws: seq<Span>) {
    && (forall i | 0 <= i < |ws| :: ws[i].lo < ws[i].hi <= ws[i].lo + size)
    && (forall i | 0 <= i < |ws| - 1 :: Follows(overlap, ws[i], ws[i + 1]))
  }

  lemma TilesPrepended(size: nat, overlap: int, w: Span, rest: seq<Span>)
    requires Tiles(size, overlap, rest) && w.lo < w.hi <= w.lo + size && rest != [] && Follows(overlap, w, rest[0])
    ensures Tiles(size, overlap, [w] + rest)
  {
    hide Follows;
    var ws := [w] + rest;
    forall i | 0 <= i < |ws| - 1
      ensures Follows(overlap, ws[i], ws[i + 1])
    {
      if i > 0 {
        assert ws[i] == rest[i - 1] && ws[i + 1] == rest[i];
      }
    }
  }

  /** The windows tile the text from the start to its end. */
  lemma {:induction false} WindowsTile(text: string, size: nat, overlap: int, start: nat)
    requires Allowed(size, overlap) && 0 <= overlap && start < |text|
    ensures var ws := Windows(text, size, overlap, start);
            && ws != [] && ws[0] == Span(start, WindowEnd(text, size, start)) && ws[|ws| - 1].hi == |text|
            && Tiles(size, overlap, ws)
    decreases |text| - start
  {
    WindowsUnfold(text, size, overlap, start);
    WindowBounds(text, size, start);
    var end := WindowEnd(text, size, start);
    hide WindowEnd, Windows;
    if end < |text| {
      NextFollows(text, size, overlap, start);
      var next := NextStart(end, overlap);
      WindowsTile(text, size, overlap, next);
      TilesPrepended(size, overlap, Span(start, end), Windows(text, size, overlap, next));
    }
  }

  ghost predicate InSome(spans: seq<Span>, p: int) {
    exists i :: 0 <= i < |spans| && spans[i].lo <= p < spans[i].hi
  }

  lemma {:induction false} WindowsCover(text: string, size: nat, overlap: int, start: nat, p: nat)
    requires Allowed(size, overlap) && 0 <= overlap && start <= p < |text|
    ensures InSome(Windows(text, size, overlap, start), p)
    decreases |text| - start
  {
    WindowBounds(text, size, start);
    var end := WindowEnd(text, size, start);
    var ws := Windows(text, size, overlap, start);
    if p < end {
      assert ws[0].lo <= p < ws[0].hi;
    } else {
      var next := NextStart(end, overlap);
      WindowsCover(text, size, overlap, next, p);
      var rest := Windows(text, size, overlap, next);
      var i :| 0 <= i < |rest| && rest[i].lo <= p < rest[i].hi;
      assert ws[i + 1] == rest[i];
    }
  }

  lemma InSomeOfBoth(a: seq<Span>, b: seq<Span>, p: int)
    ensures InSome(a + b, p) <==> InSome(a, p) || InSome(b, p)
  {
    var all := a + b;
    if InSome(a, p) {
      var i :| 0 <= i < |a| && a[i].lo <= p < a[i].hi;
      assert all[i] == a[i];
    }
    if InSome(b, p) {
      var i :| 0 <= i < |b| && b[i].lo <= p < b[i].hi;
      assert all[|a| + i] == b[i];
    }
  }

  lemma NotInNone(spans: seq<Span>, p: int)
    requires InSome(spans, p)
    ensures spans != []
  {
  }

  lemma OneSpan(s: Span, p: int)
    ensures InSome([s], p) <==> s.lo <= p < s.hi
  {
    assert [s][0] == s;
  }

  lemma StrippedKeeps(text: string, w: Span, p: nat)
    requires Fits(text, w) && w.lo <= p < w.hi && !IsSpace(text[p])
    ensures InSome([Stripped(text, w)], p) && Stripped(text, w).lo < Stripped(text, w).hi
  {
    assert text[w.lo..w.hi][p - w.lo] == text[p];
    StrippedIsPiece(text, w);
    var spans := [Stripped(text, w)];
    hide Stripped, IsSpace;
    assert spans[0].lo <= p < spans[0].hi;
  }

  lemma {:induction false} PiecesKeep(text: string, windows: seq<Span>, p: nat)
    requires forall i | 0 <= i < |windows| :: Fits(text, windows[i])
    requires InSome(windows, p) && p < |text| && !IsSpace(text[p])
    ensures InSome(Pieces(text, windows), p)
  {
    hide IsSpace, InSome, Stripped;
    NotInNone(windows, p);
    var last, front := windows[|windows| - 1], windows[..|windows| - 1];
    assert windows == front + [last];
    InSomeOfBoth(front, [last], p);
    var stripped := Stripped(text, last);
    InSomeOfBoth(Pieces(text, front), if stripped.lo < stripped.hi then [stripped] else [], p);
    if InSome(front, p) {
      PiecesKeep(text, front, p);
    } else {
      OneSpan(last, p);
      StrippedKeeps(text, last, p);
    }
  }

  ghost predicate PieceOfSome(text: string, windows: seq<Span>, piece: Span) {
    exists i :: 0 <= i < |windows| && IsPieceOf(text, piece, windows[i])
  }

  /** Every chunk is a stretch of one window, with no whitespace at its ends. */
  lemma {:induction false} PiecesAreOfWindows(text: string, windows: seq<Span>)
    requires forall i | 0 <= i < |windows| :: Fits(text, windows[i])
    ensures forall j | 0 <= j < |Pieces(text, windows)| :: PieceOfSome(text, windows, Pieces(text, windows)[j])
  {
    if windows != [] {
      var last, front := windows[|windows| - 1], windows[..|windows| - 1];
      PiecesAreOfWindows(text, front);
      StrippedIsPiece(text, last);
      hide IsPieceOf, Stripped;
      var pieces, before := Pieces(text, windows), Pieces(text, front);
      forall j | 0 <= j < |pieces|
        ensures PieceOfSome(text, windows, pieces[j])
      {
        if j < |before| {
          assert pieces[j] == before[j];
          var i :| 0 <= i < |front| && IsPieceOf(text, before[j], front[i]);
          assert windows[i] == front[i];
        }
      }
    }
  }

  /** No character that is not whitespace is lost. */
  ghost predicate Covers(text: string, size: nat, overlap: int)
    requires Allowed(size, overlap)
  {
    forall p: nat | p < |text| && !IsSpace(text[p]) :: InSome(Pieces(text, Windows(text, size, overlap, 0)), p)
  }

  function Letters(length: nat): (text: string)
    ensures |text| == length && forall i | 0 <= i < length :: text[i] == 'x'
  {
    seq(length, i => 'x')
  }

  lemma LettersWindow(size: nat, length: nat)
    requires 1 <= size < length
    ensures WindowEnd(Letters(length), size, 0) == size
  {
    var text := Letters(length);
    forall pats, p | pats == [PARAGRAPH] || pats == SENTENCES
      ensures !AnyStands(text, pats, p)
    {
      if AnyStands(text, pats, p) {
        var i :| 0 <= i < |pats| && Stands(text, pats[i], p);
        if pats == SENTENCES {
          SentenceEnds(i);
        }
        FirstLetter(text, pats[i], p);
      }
    }
    hide AnyStands, WindowEnd;
    WindowEndIsBest(text, size, 0);
  }

  lemma PiecesAddNothing(text: string, windows: seq<Span>, p: nat)
    requires forall i | 0 <= i < |windows| :: Fits(text, windows[i])
    requires !InSome(windows, p)
    ensures !InSome(Pieces(text, windows), p)
  {
    PiecesAreOfWindows(text, windows);
    var pieces := Pieces(text, windows);
    hide Pieces, IsSpace;
    forall j | 0 <= j < |pieces|
      ensures !(pieces[j].lo <= p < pieces[j].hi)
    {
      assert PieceOfSome(text, windows, pieces[j]);
    }
  }

  /** With a negative overlap the text between two windows is lost. */
  lemma NegativeOverlapLoses(size: nat, overlap: int)
    requires Allowed(size, overlap) && overlap < 0
    ensures !Covers(Letters(2 * size - overlap), size, overlap)
  {
    var text := Letters(2 * size - overlap);
    SpaceFacts();
    assert text[size] == 'x';
    assert size >= 1 && NextStart(size, overlap) == size - overlap;
    hide *;
    LettersWindow(size, |text|);
    WindowsUnfold(text, size, overlap, 0);
    var ws := Windows(text, size, overlap, 0);
    var rest := Windows(text, size, overlap, size - overlap);
    assert ws == [Span(0, size)] + rest;
    InSomeOfBoth([Span(0, size)], rest, size);
    OneSpan(Span(0, size), size);
    NotBefore(rest, size);
    PiecesAddNothing(text, ws, size);
    NotCovered(text, size, overlap, size);
  }

  lemma NotBefore(spans: seq<Span>, p: int)
    requires forall i | 0 <= i < |spans| :: p < spans[i].lo
    ensures !InSome(spans, p)
  {
  }

  lemma NotCovered(text: string, size: nat, overlap: int, p: nat)
    requires Allowed(size, overlap)
    ensures p < |text| && !IsSpace(text[p]) && !InSome(Pieces(text, Windows(text, size, overlap, 0)), p) ==>
              !Covers(text, size, overlap)
  {
  }

  /** One of the two places that validate the overlap lets a negative one through; exactly those lose text. */
  lemma CoversEveryTextIff(size: nat, overlap: int)
    requires Allowed(size, overlap)
    ensures (forall text :: Covers(text, size, overlap)) <==> overlap >= 0
  {
    if overlap >= 0 {
      forall text: string, p: nat | p < |text| && !IsSpace(text[p])
        ensures InSome(Pieces(text, Windows(text, size, overlap, 0)), p)
      {
        WindowsCover(text, size, overlap, 0, p);
        PiecesKeep(text, Windows(text, size, overlap, 0), p);
      }
    } else {
      NegativeOverlapLoses(size, overlap);
    }
  }

  function PieceText(text: string, piece: Span): string
    requires Fits(text, piece)
  {
    text[piece.lo..piece.hi]
  }

  function Numbered(text: string, pieces: seq<Span>): (chunks: seq<Chunk>)
    requires forall i | 0 <= i < |pieces| :: Fits(text, pieces[i])
    ensures |chunks| == |pieces|
    ensures forall i | 0 <= i < |chunks| :: chunks[i] == Chunk(PieceText(text, pieces[i]), i)
  {
    seq(|pieces|, i requires 0 <= i < |pieces| => Chunk(PieceText(text, pieces[i]), i))
  }

  /** What `_chunk_by_chars` returns when it does return. */
  function CharChunks(text: string, size: nat, overlap: int): seq<Chunk>
    requires Allowed(size, overlap)
  {
    if |text| <= size then [Chunk(text, 0)]
    else
      var windows := Windows(text, size, overlap, 0);
      PiecesFit(text, windows);
      Numbered(text, Pieces(text, windows))
  }

  lemma {:induction false} PiecesFit(text: string, windows: seq<Span>)
    requires forall i | 0 <= i < |windows| :: Fits(text, windows[i])
    ensures forall j | 0 <= j < |Pieces(text, windows)| :: Fits(text, Pieces(text, windows)[j])
  {
    PiecesAreOfWindows(text, windows);
    hide Pieces;
    forall piece | PieceOfSome(text, windows, piece)
      ensures Fits(text, piece)
    {
    }
  }

  predicate FirstWindowBlank(text: string, size: nat) {
    size < |text| &&
    var end := WindowEnd(text, size, 0);
    end <= |text| && Blank(text[0..end])
  }

  /** Up to where the first window ends there is only whitespace. */
  ghost predicate StartsBlank(text: string, size: nat) {
    exists end: nat | end <= |text| :: EndsRight(text, size, 0, end) && WindowBlank(text, Span(0, end))
  }

  lemma EndsOneWay(text: string, size: nat, start: nat, a: int, b: int)
    requires EndsRight(text, size, start, a) && EndsRight(text, size, start, b)
    ensures a == b
  {
    hide HasBreak, AnyStands;
  }

  lemma StartsBlankIff(text: string, size: nat)
    requires 1 <= size < |text|
    ensures FirstWindowBlank(text, size) <==> StartsBlank(text, size)
  {
    var end := WindowEnd(text, size, 0);
    WindowEndIsBest(text, size, 0);
    WindowBounds(text, size, 0);
    forall p: nat | p < end ensures text[p] == text[0..end][p] {
    }
    if StartsBlank(text, size) {
      var e: nat :| e <= |text| && EndsRight(text, size, 0, e) && WindowBlank(text, Span(0, e));
      EndsOneWay(text, size, 0, e, end);
    }
    hide EndsRight, WindowEnd, IsSpace;
    if Blank(text[0..end]) {
      assert WindowBlank(text, Span(0, end));
    }
  }

  /** A text on which it raises: of any size, one blank window and a letter. */
  lemma BlankStart(size: nat)
    requires size >= 1
    ensures FirstWindowBlank(seq(size, i => ' ') + "x", size)
  {
    var text := seq(size, i => ' ') + "x";
    SpaceFacts();
    forall pats, p | (pats == [PARAGRAPH] || pats == SENTENCES) && p < size
      ensures !AnyStands(text, pats, p)
    {
      if AnyStands(text, pats, p) {
        var i :| 0 <= i < |pats| && Stands(text, pats[i], p);
        if pats == SENTENCES {
          SentenceEnds(i);
        }
        FirstLetter(text, pats[i], p);
      }
    }
    hide AnyStands, WindowEnd;
    WindowEndIsBest(text, size, 0);
    assert text[0..size] == seq(size, i => ' ');
  }

  /** The inner loop of `_chunk_by_chars`: the last sentence break of any kind. */
  method LastSentence(text: string, from: nat, end: nat) returns (best: int)
    requires end <= |text|
    ensures best == LastOf(text, SENTENCES, from, end)
  {
    best := -1;
    for i := 0 to |SENTENCES|
      invariant best == LastOf(text, SENTENCES[..i], from, end)
    {
      assert SENTENCES[..i + 1][..i] == SENTENCES[..i];
      var pos := RFind(text, SENTENCES[i], from, end);
      if pos > best {
        best := pos;
      }
    }
    assert SENTENCES[..|SENTENCES|] == SENTENCES;
  }

  /** Where a window is cut: a method because the source looks for the break step by step. */
  method CutWindow(text: string, size: nat, start: nat) returns (end: nat)
    requires start < |text|
    ensures end == WindowEnd(text, size, start)
  {
    end := if start + size < |text| then start + size else |text|;
    if end < |text| {
      var searchStart := start + Tail(size);
      var paragraph := RFind(text, PARAGRAPH, searchStart, end);
      if paragraph > searchStart {
        end := paragraph + 2;
      } else {
        var best := LastSentence(text, searchStart, end);
        if best > searchStart {
          end := best + 2;
        }
      }
    }
  }

  // ---------------------------------------------------------------------- the loop

  /** The windows cut in the first `turns` turns of the loop, for any overlap. */
  function Cut(text: string, size: nat, overlap: int, turns: nat): (ws: seq<Span>)
    requires size >= 1
    ensures forall i | 0 <= i < |ws| :: Fits(text, ws[i])
  {
    if turns == 0 then []
    else
      var before, front := After(text, size, overlap, turns - 1), Cut(text, size, overlap, turns - 1);
      if before.At? && before.start < |text| then
        WindowBounds(text, size, before.start);
        front + [Span(before.start, WindowEnd(text, size, before.start))]
      else front
  }

  /** The windows a loop has cut: from the beginning on, each ended rightly, and each after the one before it. */
  ghost predicate CutRight(text: string, size: nat, overlap: int, ws: seq<Span>) {
    && (ws != [] ==> ws[0].lo == 0)
    && (forall i | 0 <= i < |ws| :: ws[i].lo < ws[i].hi <= |text| && EndsRight(text, size, ws[i].lo, ws[i].hi))
    && (forall i | 0 <= i < |ws| - 1 :: ws[i].hi < |text| && BeginsAfter(overlap, ws[i].hi, ws[i + 1].lo))
  }

  /** The windows reach the end of the text, or leave it behind by a negative overlap. */
  ghost predicate ReachesEnd(text: string, overlap: int, ws: seq<Span>) {
    ws != [] && var last := ws[|ws| - 1]; last.hi == |text| || last.hi - overlap >= |text|
  }

  lemma CutMore(text: string, size: nat, overlap: int, ws: seq<Span>, start: nat)
    requires 1 <= size && CutRight(text, size, overlap, ws) && start < |text|
    requires if ws == [] then start == 0
             else ws[|ws| - 1].hi < |text| && BeginsAfter(overlap, ws[|ws| - 1].hi, start)
    ensures CutRight(text, size, overlap, ws + [Span(start, WindowEnd(text, size, start))])
  {
    WindowEndIsBest(text, size, start);
    WindowBounds(text, size, start);
    hide EndsRight, WindowEnd, BeginsAfter;
    var all := ws + [Span(start, WindowEnd(text, size, start))];
    assert forall i | 0 <= i < |ws| :: all[i] == ws[i];
  }

  /** The loop cuts its windows rightly, and when it has not crashed they reach the end of the text. */
  lemma {:induction false} CutIsRight(text: string, size: nat, overlap: int, turns: nat)
    requires 1 <= size < |text|
    ensures var ws, after := Cut(text, size, overlap, turns), After(text, size, overlap, turns);
            && CutRight(text, size, overlap, ws)
            && (after.Finished? ==> ReachesEnd(text, overlap, ws))
            && (after.At? ==> if ws == [] then after.start == 0
                              else ws[|ws| - 1].hi < |text| && BeginsAfter(overlap, ws[|ws| - 1].hi, after.start))
  {
    if turns > 0 {
      CutIsRight(text, size, overlap, turns - 1);
      var before := After(text, size, overlap, turns - 1);
      if before.At? && before.start < |text| {
        CutMore(text, size, overlap, Cut(text, size, overlap, turns - 1), before.start);
        WindowBounds(text, size, before.start);
      }
      hide CutRight, WindowEnd, Blank;
    }
  }

  /** The chunks are the windows that are not blank, trimmed and numbered in order; `picks` tells which. */
  ghost predicate ChunkedBy(text: string, ws: seq<Span>, picks: seq<nat>, chunks: seq<Chunk>) {
    && |picks| == |chunks|
    && (forall j, k | 0 <= j < k < |picks| :: picks[j] < picks[k])
    && (forall k | 0 <= k < |picks| ::
          picks[k] < |ws| && chunks[k].index == k && ChunkOf(text, ws[picks[k]], chunks[k]))
    && forall i: nat | i < |ws| && i !in picks :: WindowBlank(text, ws[i])
  }

  ghost predicate ChunkOf(text: string, w: Span, chunk: Chunk) {
    exists piece :: IsPieceOf(text, piece, w) && chunk.text == text[piece.lo..piece.hi]
  }

  lemma StrippedBlank(text: string, w: Span, p: nat)
    requires Fits(text, w) && Stripped(text, w).lo >= Stripped(text, w).hi && w.lo <= p < w.hi
    ensures IsSpace(text[p])
  {
    StrippedIsPiece(text, w);
    hide IsSpace;
    assert text[p] == text[w.lo..w.hi][p - w.lo];
  }

  /** Which windows the pieces come from. */
  ghost predicate Picks(text: string, ws: seq<Span>, pieces: seq<Span>, picks: seq<nat>) {
    && |picks| == |pieces| && (forall j, k | 0 <= j < k < |picks| :: picks[j] < picks[k])
    && (forall k | 0 <= k < |picks| :: picks[k] < |ws| && IsPieceOf(text, pieces[k], ws[picks[k]]))
    && forall i: nat | i < |ws| && i !in picks :: WindowBlank(text, ws[i])
  }

  ghost predicate WindowBlank(text: string, w: Span) {
    forall p: nat | w.lo <= p < w.hi && p < |text| :: IsSpace(text[p])
  }

  lemma PickedToo(text: string, front: seq<Span>, w: Span, pieces: seq<Span>, picks: seq<nat>, piece: Span)
    requires Picks(text, front, pieces, picks) && IsPieceOf(text, piece, w)
    ensures Picks(text, front + [w], pieces + [piece], picks + [|front|])
  {
    hide IsPieceOf, WindowBlank;
    var ws, all := front + [w], picks + [|front|];
    assert forall i | 0 <= i < |front| :: ws[i] == front[i];
    assert forall k | 0 <= k < |picks| :: all[k] == picks[k];
    assert all[|picks|] == |front|;
  }

  lemma PassedOver(text: string, front: seq<Span>, w: Span, pieces: seq<Span>, picks: seq<nat>)
    requires Picks(text, front, pieces, picks) && WindowBlank(text, w)
    ensures Picks(text, front + [w], pieces, picks)
  {
    hide IsPieceOf, WindowBlank;
    var ws := front + [w];
    assert forall i | 0 <= i < |front| :: ws[i] == front[i];
  }

  lemma OnePicked(text: string, front: seq<Span>, w: Span, pieces: seq<Span>, picks: seq<nat>)
    requires Picks(text, front, pieces, picks) && Fits(text, w)
    ensures var s := Stripped(text, w);
            if s.lo < s.hi then Picks(text, front + [w], pieces + [s], picks + [|front|])
            else Picks(text, front + [w], pieces, picks)
  {
    StrippedIsPiece(text, w);
    var s := Stripped(text, w);
    hide IsSpace, IsPieceOf, Stripped, Picks, Blank;
    if s.lo < s.hi {
      PickedToo(text, front, w, pieces, picks, s);
    } else {
      forall p: nat | w.lo <= p < w.hi ensures IsSpace(text[p]) {
        StrippedBlank(text, w, p);
      }
      PassedOver(text, front, w, pieces, picks);
    }
  }

  lemma {:induction false} Picked(text: string, ws: seq<Span>) returns (picks: seq<nat>)
    requires forall i | 0 <= i < |ws| :: Fits(text, ws[i])
    ensures Picks(text, ws, Pieces(text, ws), picks)
  {
    picks := [];
    if ws != [] {
      var n := |ws| - 1;
      picks := Picked(text, ws[..n]);
      OnePicked(text, ws[..n], ws[n], Pieces(text, ws[..n]), picks);
      assert ws[..n] + [ws[n]] == ws;
      var s := Stripped(text, ws[n]);
      hide Picks, Stripped, Fits;
      if s.lo < s.hi {
        picks := picks + [n];
      } else {
        assert Pieces(text, ws[..n]) + [] == Pieces(text, ws[..n]);
      }
    }
  }

  lemma PickedChunks(text: string, ws: seq<Span>) returns (picks: seq<nat>)
    requires forall i | 0 <= i < |ws| :: Fits(text, ws[i])
    requires forall i | 0 <= i < |Pieces(text, ws)| :: Fits(text, Pieces(text, ws)[i])
    ensures ChunkedBy(text, ws, picks, Numbered(text, Pieces(text, ws)))
  {
    picks := Picked(text, ws);
    hide IsSpace, IsPieceOf, Pieces;
    var pieces := Pieces(text, ws);
    forall k | 0 <= k < |picks|
      ensures ChunkOf(text, ws[picks[k]], Numbered(text, pieces)[k])
    {
      assert IsPieceOf(text, pieces[k], ws[picks[k]]);
    }
  }

  /** The chunks after so many turns. */
  function ChunksAfter(text: string, size: nat, overlap: int, turns: nat): seq<Chunk>
    requires size >= 1
  {
    if |text| <= size then [Chunk(text, 0)]
    else
      PiecesFit(text, Cut(text, size, overlap, turns));
      Numbered(text, Pieces(text, Cut(text, size, overlap, turns)))
  }

  lemma {:induction false} CutIsFront(text: string, size: nat, overlap: int, turns: nat)
    requires Allowed(size, overlap) && After(text, size, overlap, turns).At?
    ensures Windows(text, size, overlap, 0)
            == Cut(text, size, overlap, turns) + Windows(text, size, overlap, After(text, size, overlap, turns).start)
  {
    if turns == 0 {
      assert [] + Windows(text, size, overlap, 0) == Windows(text, size, overlap, 0);
    } else {
      CutIsFront(text, size, overlap, turns - 1);
      var start := After(text, size, overlap, turns - 1).start;
      WindowsUnfold(text, size, overlap, start);
      hide WindowEnd, Windows, Blank;
      var front, end := Cut(text, size, overlap, turns - 1), WindowEnd(text, size, start);
      Regrouped(front, Span(start, end), Windows(text, size, overlap, NextStart(end, overlap)));
    }
  }

  /** With an allowed overlap the loop cuts exactly the windows of `Windows`, so its chunks are `CharChunks`. */
  lemma {:induction false} CutIsWindows(text: string, size: nat, overlap: int, turns: nat)
    requires Allowed(size, overlap) && After(text, size, overlap, turns).Finished?
    ensures Cut(text, size, overlap, turns) == Windows(text, size, overlap, 0)
    ensures ChunksAfter(text, size, overlap, turns) == CharChunks(text, size, overlap)
  {
    var before := After(text, size, overlap, turns - 1);
    if before.Finished? {
      CutIsWindows(text, size, overlap, turns - 1);
    } else {
      CutIsFront(text, size, overlap, turns - 1);
      var front, start := Cut(text, size, overlap, turns - 1), before.start;
      assert front + [] == front;
      if start < |text| {
        WindowsUnfold(text, size, overlap, start);
        hide WindowEnd, Windows, Blank, Pieces;
      }
    }
  }

  lemma Regrouped(a: seq<Span>, w: Span, b: seq<Span>)
    ensures a + ([w] + b) == a + [w] + b
  {
  }

  lemma {:induction false} StoppedStays(text: string, size: nat, overlap: int, turns: nat, more: nat)
    requires turns <= more && !After(text, size, overlap, turns).At?
    ensures After(text, size, overlap, more) == After(text, size, overlap, turns)
  {
    hide Turn;
    if turns < more {
      StoppedStays(text, size, overlap, turns, more - 1);
    }
  }

  /** The chunks so far are those of the windows cut so far. */
  ghost predicate SoFar(text: string, size: nat, overlap: int, turns: nat, start: nat, chunks: seq<Chunk>)
    requires 1 <= size < |text|
  {
    && After(text, size, overlap, turns) == At(start)
    && chunks == ChunksAfter(text, size, overlap, turns)
  }

  lemma NothingSoFar(text: string, size: nat, overlap: int)
    requires 1 <= size < |text|
    ensures SoFar(text, size, overlap, 0, 0, [])
  {
  }

  function WithPiece(text: string, chunks: seq<Chunk>, piece: Span): seq<Chunk>
    requires Fits(text, piece)
  {
    if piece.lo < piece.hi then chunks + [Chunk(PieceText(text, piece), |chunks|)] else chunks
  }

  lemma PieceAppended(text: string, done: seq<Span>, w: Span)
    requires (forall i | 0 <= i < |done| :: Fits(text, done[i])) && Fits(text, w)
    requires forall i | 0 <= i < |Pieces(text, done)| :: Fits(text, Pieces(text, done)[i])
    ensures forall i | 0 <= i < |Pieces(text, done + [w])| :: Fits(text, Pieces(text, done + [w])[i])
    ensures WithPiece(text, Numbered(text, Pieces(text, done)), Stripped(text, w))
            == Numbered(text, Pieces(text, done + [w]))
  {
    hide Stripped;
    assert (done + [w])[..|done|] == done;
  }

  lemma OneMoreWindow(text: string, size: nat, overlap: int, turns: nat, start: nat, chunks: seq<Chunk>)
    requires 1 <= size < |text| && SoFar(text, size, overlap, turns, start, chunks) && start < |text|
    ensures start < WindowEnd(text, size, start) <= |text|
    ensures ChunksAfter(text, size, overlap, turns + 1)
            == WithPiece(text, chunks, Stripped(text, Span(start, WindowEnd(text, size, start))))
  {
    WindowBounds(text, size, start);
    var done, w := Cut(text, size, overlap, turns), Span(start, WindowEnd(text, size, start));
    assert Cut(text, size, overlap, turns + 1) == done + [w];
    hide Stripped, WindowEnd, Cut, After, Pieces, WithPiece, Numbered;
    PiecesFit(text, done);
    PieceAppended(text, done, w);
  }

  lemma EmptyIffBlank(text: string, w: Span)
    requires Fits(text, w)
    ensures Stripped(text, w).lo < Stripped(text, w).hi <==> !Blank(text[w.lo..w.hi])
  {
    StrippedIsPiece(text, w);
  }

  /** One window: where it ends, and the chunks with its own, if it is not blank. `idx` counts the chunks. */
  method CutChunk(text: string, size: nat, overlap: int, start: nat, chunks: seq<Chunk>, idx: nat, ghost turns: nat)
    returns (end: nat, longer: seq<Chunk>, next: nat)
    requires 1 <= size < |text| && SoFar(text, size, overlap, turns, start, chunks)
    requires start < |text| && idx == |chunks|
    ensures start < end == WindowEnd(text, size, start) <= |text|
    ensures longer == ChunksAfter(text, size, overlap, turns + 1)
    ensures next == |longer| && (longer == [] <==> chunks == [] && Blank(text[start..end]))
  {
    hide Blank, Stripped, SoFar, WindowEnd, ChunksAfter;
    end := CutWindow(text, size, start);
    OneMoreWindow(text, size, overlap, turns, start, chunks);
    EmptyIffBlank(text, Span(start, end));
    var piece := Stripped(text, Span(start, end));
    var chunk := text[piece.lo..piece.hi];
    longer, next := chunks, idx;
    if chunk != "" {
      longer := chunks + [Chunk(chunk, idx)];
      next := idx + 1;
    }
  }

  /** What a turn makes of the loop, in the terms of its body. */
  lemma TurnFacts(text: string, size: nat, overlap: int, turns: nat, start: nat, last: nat)
    requires 1 <= size < |text| && After(text, size, overlap, turns) == At(start)
    requires !After(text, size, overlap, last).At?
    ensures turns < last
    ensures start < |text| ==>
              var end, after := WindowEnd(text, size, start), After(text, size, overlap, turns + 1);
              && end <= |text| && NextStart(end, overlap) > 0
              && (start == 0 ==> end < |text| && (FirstWindowBlank(text, size) <==> Blank(text[start..end])))
              && after == if end >= |text| then Finished
                          else if start == 0 && FirstWindowBlank(text, size) then Crashed
                          else At(NextStart(end, overlap))
    ensures start >= |text| ==> After(text, size, overlap, turns + 1).Finished?
  {
    if last <= turns {
      StoppedStays(text, size, overlap, last, turns);
    }
    if start < |text| {
      WindowBounds(text, size, start);
    }
    hide WindowEnd, Blank;
  }

  /**
   `_chunk_by_chars`, whenever its loop ends: for which overlaps that is on every text, `StopsOnEveryTextIff`
   says. None stands for the IndexError: the size is exceeded and the first window is blank. Otherwise the
   chunks are those of the windows the loop cuts, which for the overlaps that always end are `CharChunks`.
   */
  method ChunkByChars(text: string, size: nat, overlap: int)
    returns (result: Option<seq<Chunk>>, ghost turns: nat, ghost windows: seq<Span>, ghost picks: seq<nat>)
    requires size >= 1 && Stops(text, size, overlap)
    ensures |text| <= size ==> result == Some([Chunk(text, 0)])
    ensures |text| > size ==>
              && CutRight(text, size, overlap, windows) && (result.None? <==> StartsBlank(text, size))
              && (result.Some? ==>
                    ReachesEnd(text, overlap, windows) && ChunkedBy(text, windows, picks, result.value))
    ensures !After(text, size, overlap, turns).At?
    ensures result.None? <==> After(text, size, overlap, turns).Crashed?
    ensures result.None? <==> FirstWindowBlank(text, size)
    ensures result.Some? ==> result.value == ChunksAfter(text, size, overlap, turns)
    ensures result.Some? && Allowed(size, overlap) ==> result.value == CharChunks(text, size, overlap)
  {
    ghost var last: nat :| !After(text, size, overlap, last).At?;
    if |text| <= size {
      ShortText(text, size, overlap);
      return Some([Chunk(text, 0)]), 1, [], [];
    }
    hide *;
    StartsBlankIff(text, size);
    windows, picks := [], [];
    var chunks: seq<Chunk> := [];
    var start: nat, idx: nat := 0, 0;
    turns := 0;
    NothingSoFar(text, size, overlap);
    while start < |text|
      invariant SoFar(text, size, overlap, turns, start, chunks) && idx == |chunks|
      invariant After(text, size, overlap, turns) == At(start)
      invariant if start == 0 then chunks == [] else chunks != [] && !FirstWindowBlank(text, size)
      decreases last - turns
    {
      var end;
      TurnFacts(text, size, overlap, turns, start, last);
      end, chunks, idx := CutChunk(text, size, overlap, start, chunks, idx, turns);
      turns := turns + 1;
      if end >= |text| {
        AllSoFar(text, size, overlap, turns, chunks);
        windows, picks := WindowsCut(text, size, overlap, turns);
        return Some(chunks), turns, windows, picks;
      }
      if chunks == [] {
        windows, picks := WindowsCut(text, size, overlap, turns);
        return None, turns, windows, picks;
      }
      start := NextStart(end, overlap);
      StillSoFar(text, size, overlap, turns, start, chunks);
    }
    TurnFacts(text, size, overlap, turns, start, last);
    NothingMore(text, size, overlap, turns, start, chunks);
    turns := turns + 1;
    AllSoFar(text, size, overlap, turns, chunks);
    windows, picks := WindowsCut(text, size, overlap, turns);
    result := Some(chunks);
  }

  lemma WindowsCut(text: string, size: nat, overlap: int, turns: nat) returns (windows: seq<Span>, picks: seq<nat>)
    requires 1 <= size < |text|
    ensures CutRight(text, size, overlap, windows)
    ensures ChunkedBy(text, windows, picks, ChunksAfter(text, size, overlap, turns))
    ensures After(text, size, overlap, turns).Finished? ==> ReachesEnd(text, overlap, windows)
  {
    windows := Cut(text, size, overlap, turns);
    hide Cut, After, CutRight, ReachesEnd, ChunkedBy, Pieces;
    PiecesFit(text, windows);
    picks := PickedChunks(text, windows);
    CutIsRight(text, size, overlap, turns);
  }

  lemma StillSoFar(text: string, size: nat, overlap: int, turns: nat, start: nat, chunks: seq<Chunk>)
    requires 1 <= size < |text| && After(text, size, overlap, turns) == At(start)
    requires chunks == ChunksAfter(text, size, overlap, turns)
    ensures SoFar(text, size, overlap, turns, start, chunks)
  {
  }

  lemma NothingMore(text: string, size: nat, overlap: int, turns: nat, start: nat, chunks: seq<Chunk>)
    requires 1 <= size < |text| <= start && SoFar(text, size, overlap, turns, start, chunks)
    ensures chunks == ChunksAfter(text, size, overlap, turns + 1)
  {
    assert Cut(text, size, overlap, turns + 1) == Cut(text, size, overlap, turns);
    hide Cut, Pieces;
  }

  lemma AllSoFar(text: string, size: nat, overlap: int, turns: nat, chunks: seq<Chunk>)
    requires 1 <= size < |text| && After(text, size, overlap, turns).Finished?
    requires chunks == ChunksAfter(text, size, overlap, turns)
    ensures Allowed(size, overlap) ==> chunks == CharChunks(text, size, overlap)
  {
    hide Pieces, ChunksAfter, CharChunks, After;
    if Allowed(size, overlap) {
      CutIsWindows(text, size, overlap, turns);
    }
  }

  lemma ShortText(text: string, size: nat, overlap: int)
    requires |text| <= size
    ensures After(text, size, overlap, 1) == Finished && !FirstWindowBlank(text, size)
  {
    assert After(text, size, overlap, 0) == At(0);
  }
}
