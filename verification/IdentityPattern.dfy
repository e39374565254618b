/**
 Templates for document identities (api/api.py; `make_chunk_doc_id` and `make_chunk_prefix` of
 api/chunker.py): parsing as `string.Formatter().parse` does it, printing, and rendering.
 */
module IdentityPattern {
  import opened Outcomes
  import opened Digits

  /** Literal text and the field after it. `colon`: the field was written with an empty format spec, `{name:}`. */
  datatype Piece = Piece(literal: string, field: Option<string>, colon: bool)

  /** How many characters come before the first brace. */
  function LiteralLength(p: string): (n: nat)
    ensures n <= |p| && (n < |p| ==> p[n] in {'{', '}'})
    ensures forall i | 0 <= i < n :: p[i] !in {'{', '}'}
  {
    if p == "" || p[0] in {'{', '}'} then 0 else LiteralLength(p[1..]) + 1
  }

  /** How many characters a field name has: it ends at a brace, `:` or `!` that is not inside `[...]`. */
  function NameLength(p: string, bracket: bool): (n: nat)
    ensures n <= |p| && (n < |p| ==> p[n] in {'{', '}', ':', '!'})
  {
    if p == "" then 0
    else if bracket then NameLength(p[1..], p[0] != ']') + 1
    else if p[0] in {'{', '}', ':', '!'} then 0
    else NameLength(p[1..], p[0] == '[') + 1
  }

  /** How a field is closed. */
  function Close(colon: bool): string {
    if colon then ":}" else "}"
  }

  datatype Shape = NoField | Shape(length: nat, colon: bool)

  /** The length of the name and how it is closed. A doubled brace, a format spec and a conversion are rejected. */
  function FieldShape(p: string): (r: Shape)
    ensures r.Shape? ==>
              && r.length + |Close(r.colon)| <= |p|
              && p[r.length..r.length + |Close(r.colon)|] == Close(r.colon)
  {
    var n := NameLength(p, false);
    if n == |p| || (n == 0 && p[0] == '{') then NoField
    else if p[n] == '}' then Shape(n, false)
    else if p[n] == ':' && n + 1 < |p| && p[n + 1] == '}' then Shape(n, true)
    else NoField
  }

  function PrintPiece(piece: Piece): string {
    if piece.field.None? then piece.literal
    else piece.literal + "{" + piece.field.value + Close(piece.colon)
  }

  datatype Cut = Malformed | Cut(piece: Piece, length: nat)

  /** The first piece of a pattern and how much of the pattern it takes, unless it is malformed. */
  function FirstPiece(p: string): (r: Cut)
    requires p != ""
    ensures r.Cut? ==> 0 < r.length <= |p|
  {
    var n := LiteralLength(p);
    if n == |p| then Cut(Piece(p, None, false), n)
    else if p[n] == '}' then Malformed
    else
      var shape := FieldShape(p[n + 1..]);
      if shape.NoField? then Malformed
      else
        Cut(Piece(p[..n], Some(p[n + 1..n + 1 + shape.length]), shape.colon),
            n + 1 + shape.length + |Close(shape.colon)|)
  }

  function Parse(p: string): Option<seq<Piece>>
    decreases |p|
  {
    if p == "" then Some([])
    else
      var first := FirstPiece(p);
      if first.Malformed? then None
      else
        var rest := Parse(p[first.length..]);
        if rest.None? then None else Some([first.piece] + rest.value)
  }

  function Print(pieces: seq<Piece>): string {
    if pieces == [] then "" else PrintPiece(pieces[0]) + Print(pieces[1..])
  }

  lemma CutPrints(p: string, n: nat, m: nat, tail: string)
    requires n + 1 + m + |tail| <= |p| && p[n] == '{' && p[n + 1..][m..m + |tail|] == tail
    ensures p[..n] + "{" + p[n + 1..n + 1 + m] + tail == p[..n + 1 + m + |tail|]
  {
  }

  lemma FirstPiecePrints(p: string)
    requires p != "" && FirstPiece(p).Cut?
    ensures PrintPiece(FirstPiece(p).piece) == p[..FirstPiece(p).length]
  {
    hide LiteralLength, FieldShape, Close;
    var n := LiteralLength(p);
    if n == |p| {
      assert p[..|p|] == p;
    } else {
      var shape := FieldShape(p[n + 1..]);
      CutPrints(p, n, shape.length, Close(shape.colon));
    }
  }

  lemma PrintPrepended(piece: Piece, rest: seq<Piece>)
    ensures Print([piece] + rest) == PrintPiece(piece) + Print(rest)
  {
    assert ([piece] + rest)[1..] == rest;
  }

  lemma ParseStep(p: string)
    requires p != "" && Parse(p).Some?
    ensures var first := FirstPiece(p);
            && first.Cut? && Parse(p[first.length..]).Some?
            && Parse(p).value == [first.piece] + Parse(p[first.length..]).value
  {
    hide FirstPiece;
  }

  lemma CutAndRejoined(p: string, k: nat)
    requires k <= |p|
    ensures p[..k] + p[k..] == p
  {
  }

  /** Parsing then printing gives the pattern back. */
  lemma {:induction false} PrintOfParse(p: string)
    requires Parse(p).Some?
    ensures Print(Parse(p).value) == p
    decreases |p|
  {
    if p != "" {
      hide *;
      ParseStep(p);
      var first := FirstPiece(p);
      PrintOfParse(p[first.length..]);
      FirstPiecePrints(p);
      PrintPrepended(first.piece, Parse(p[first.length..]).value);
      CutAndRejoined(p, first.length);
    }
  }

  /** Printing the way the fields are usually written, `{name}`. */
  function PrintPlainly(pieces: seq<Piece>): string {
    if pieces == [] then "" else PrintPiece(pieces[0].(colon := false)) + PrintPlainly(pieces[1..])
  }

  ghost predicate WithoutColons(pieces: seq<Piece>) {
    forall i | 0 <= i < |pieces| :: pieces[i].field.Some? ==> !pieces[i].colon
  }

  lemma {:induction false} PlainPrintIsShorter(pieces: seq<Piece>)
    ensures |PrintPlainly(pieces)| <= |Print(pieces)|
    ensures if WithoutColons(pieces) then PrintPlainly(pieces) == Print(pieces)
            else |PrintPlainly(pieces)| < |Print(pieces)|
  {
    if pieces != [] {
      PlainPrintIsShorter(pieces[1..]);
      PlainPieceIsShorter(pieces[0]);
      assert WithoutColons(pieces) <==> WithoutColons([pieces[0]]) && WithoutColons(pieces[1..]) by {
        assert pieces == [pieces[0]] + pieces[1..];
      }
    }
  }

  lemma PlainPieceIsShorter(piece: Piece)
    ensures if WithoutColons([piece]) then PrintPiece(piece.(colon := false)) == PrintPiece(piece)
            else |PrintPiece(piece.(colon := false))| < |PrintPiece(piece)|
  {
    assert [piece][0] == piece;
  }

  /** An accepted pattern prints back as it was exactly when no field was written `{name:}`, which is accepted too. */
  lemma PrintsBackIffNoColon(p: string)
    requires Parse(p).Some?
    ensures PrintPlainly(Parse(p).value) == p <==> WithoutColons(Parse(p).value)
  {
    PrintOfParse(p);
    PlainPrintIsShorter(Parse(p).value);
  }

  ghost predicate PlainText(s: string) {
    forall i | 0 <= i < |s| :: s[i] !in {'{', '}'}
  }

  ghost predicate PlainName(s: string) {
    forall i | 0 <= i < |s| :: s[i] !in {'{', '}', ':', '!', '['}
  }

  /** A field name, or a last stretch of text, in every piece. */
  ghost predicate Canonical(pieces: seq<Piece>) {
    forall i | 0 <= i < |pieces| ::
      && PlainText(pieces[i].literal)
      && (pieces[i].field.Some? ==> PlainName(pieces[i].field.value))
      && (pieces[i].field.None? ==> i == |pieces| - 1 && pieces[i].literal != "" && !pieces[i].colon)
  }

  lemma {:induction false} LiteralThenBrace(s: string, rest: string)
    requires PlainText(s) && (rest != "" ==> rest[0] in {'{', '}'})
    ensures LiteralLength(s + rest) == |s|
  {
    if s != "" {
      LiteralThenBrace(s[1..], rest);
      assert (s + rest)[1..] == s[1..] + rest;
    } else {
      assert s + rest == rest;
    }
  }

  lemma {:induction false} NameThenEnd(s: string, rest: string)
    requires PlainName(s) && rest != "" && rest[0] in {'}', ':'}
    ensures NameLength(s + rest, false) == |s|
  {
    if s != "" {
      NameThenEnd(s[1..], rest);
      assert (s + rest)[1..] == s[1..] + rest;
    } else {
      assert s + rest == rest;
    }
  }

  /** A literal, a field name, and what closes the field and follows it. */
  function Assembled(literal: string, name: string, after: string): string {
    literal + ("{" + (name + after))
  }

  lemma PrintedWithRest(piece: Piece, rest: string)
    requires piece.field.Some?
    ensures PrintPiece(piece) + rest == Assembled(piece.literal, piece.field.value, Close(piece.colon) + rest)
    ensures |PrintPiece(piece)| == |piece.literal| + 1 + |piece.field.value| + |Close(piece.colon)|
  {
    var l, b, f, c := piece.literal, "{", piece.field.value, Close(piece.colon);
    assert l + b + f + c + rest == l + (b + (f + (c + rest)));
  }

  lemma Dissected(l: string, f: string, x: string)
    requires PlainText(l)
    ensures var p := Assembled(l, f, x);
            |p| > |l| && p[..|l|] == l && p[|l|] == '{' && p[|l| + 1..] == f + x && p[|l| + 1..|l| + 1 + |f|] == f
    ensures LiteralLength(Assembled(l, f, x)) == |l|
  {
    LiteralThenBrace(l, "{" + (f + x));
  }

  lemma AssembledRead(l: string, f: string, colon: bool, rest: string)
    requires PlainText(l) && PlainName(f)
    ensures FirstPiece(Assembled(l, f, Close(colon) + rest))
            == Cut(Piece(l, Some(f), colon), |l| + 1 + |f| + |Close(colon)|)
  {
    hide LiteralLength, FieldShape, Close, Assembled;
    Dissected(l, f, Close(colon) + rest);
    FieldRead(f, colon, rest);
  }

  lemma FieldPrinted(piece: Piece, rest: string)
    requires PlainText(piece.literal) && piece.field.Some? && PlainName(piece.field.value)
    ensures FirstPiece(PrintPiece(piece) + rest) == Cut(piece, |PrintPiece(piece)|)
  {
    hide *;
    PrintedWithRest(piece, rest);
    AssembledRead(piece.literal, piece.field.value, piece.colon, rest);
  }

  lemma FieldRead(name: string, colon: bool, rest: string)
    requires PlainName(name)
    ensures FieldShape(name + (Close(colon) + rest)) == Shape(|name|, colon)
  {
    var tail := Close(colon) + rest;
    NameThenEnd(name, tail);
    hide NameLength;
    var s := name + tail;
    assert s[|name|] == tail[0] && (colon ==> s[|name| + 1] == tail[1]);
    assert name != "" ==> s[0] == name[0];
  }

  lemma ParseMade(p: string, piece: Piece, k: nat, rest: seq<Piece>)
    requires p != "" && FirstPiece(p) == Cut(piece, k) && Parse(p[k..]) == Some(rest)
    ensures Parse(p) == Some([piece] + rest)
  {
    hide FirstPiece;
  }

  lemma LastTextPrinted(piece: Piece)
    requires PlainText(piece.literal) && piece.field.None? && piece.literal != "" && !piece.colon
    ensures FirstPiece(PrintPiece(piece) + "") == Cut(piece, |PrintPiece(piece)|)
  {
    var p := piece.literal;
    assert p + "" == p;
    LiteralThenBrace(p, "");
  }

  lemma Dropped(a: string, b: string)
    ensures (a + b)[|a|..] == b
  {
  }

  lemma PrintNonEmpty(piece: Piece)
    requires piece.field.None? ==> piece.literal != ""
    ensures PrintPiece(piece) != ""
  {
  }

  /** Printing then parsing gives the pieces back. */
  lemma {:induction false} ParseOfPrint(pieces: seq<Piece>)
    requires Canonical(pieces)
    ensures Parse(Print(pieces)) == Some(pieces)
  {
    if pieces != [] {
      var piece, rest := pieces[0], pieces[1..];
      assert forall i | 0 <= i < |rest| :: rest[i] == pieces[i + 1];
      ParseOfPrint(rest);
      assert pieces == [piece] + rest;
      assert piece.field.None? ==> rest == [] && Print(rest) == "";
      PrintNonEmpty(piece);
      if piece.field.Some? {
        FieldPrinted(piece, Print(rest));
      } else {
        LastTextPrinted(piece);
      }
      hide *;
      PrintPrepended(piece, rest);
      Dropped(PrintPiece(piece), Print(rest));
      ParseMade(PrintPiece(piece) + Print(rest), piece, |PrintPiece(piece)|, rest);
    }
  }

  /** An accepted pattern that does not print back: the empty format spec is gone. */
  lemma EmptySpecIsLost()
    ensures var pieces := Parse("{source:}");
            pieces.Some? && !WithoutColons(pieces.value) && PrintPlainly(pieces.value) == "{source}"
  {
    var piece := Piece("", Some("source"), true);
    assert PrintPiece(piece) + Print([]) == "{source:}" && PrintPiece(piece.(colon := false)) == "{source}";
    assert [piece] + [] == [piece] && [piece][1..] == [];
    hide PrintPiece, Parse;
    PrintPrepended(piece, []);
    ParseOfPrint([piece]);
    assert PrintPlainly([]) == "";
    assert PrintPlainly([piece]) == PrintPiece(piece.(colon := false)) + PrintPlainly([]);
  }

  // ---------------------------------------------------------------------- rendering

  type Values = map<string, string>

  /** The values a piece asks for are there. */
  ghost predicate Supplies(v: Values, pieces: seq<Piece>) {
    forall i | 0 <= i < |pieces| :: pieces[i].field.Some? ==> pieces[i].field.value in v
  }

  function ValueOf(v: Values, piece: Piece): string
    requires piece.field.Some? ==> piece.field.value in v
  {
    if piece.field.None? then "" else v[piece.field.value]
  }

  /** `_render_identity_pattern`. */
  function Render(pieces: seq<Piece>, v: Values): string
    requires Supplies(v, pieces)
  {
    if pieces == [] then "" else pieces[0].literal + ValueOf(v, pieces[0]) + Render(pieces[1..], v)
  }

  /** Names whose values always have the same length: the digests. */
  type Widths = map<string, nat>

  ghost predicate Fits(v: Values, pieces: seq<Piece>, widths: Widths) {
    && Supplies(v, pieces)
    && forall name | name in widths && name in v :: |v[name]| == widths[name]
  }

  predicate Free(piece: Piece, widths: Widths) {
    piece.field.Some? && piece.field.value !in widths
  }

  function FreeCount(pieces: seq<Piece>, widths: Widths): nat {
    if pieces == [] then 0 else (if Free(pieces[0], widths) then 1 else 0) + FreeCount(pieces[1..], widths)
  }

  ghost predicate SameValues(pieces: seq<Piece>, v: Values, w: Values)
    requires Supplies(v, pieces) && Supplies(w, pieces)
  {
    forall i | 0 <= i < |pieces| :: ValueOf(v, pieces[i]) == ValueOf(w, pieces[i])
  }

  lemma {:induction false} FixedLength(pieces: seq<Piece>, widths: Widths, v: Values, w: Values)
    requires Fits(v, pieces, widths) && Fits(w, pieces, widths) && FreeCount(pieces, widths) == 0
    ensures |Render(pieces, v)| == |Render(pieces, w)|
  {
    if pieces != [] {
      FixedLength(pieces[1..], widths, v, w);
    }
  }

  /** No two of the fields have a name whose values differ in length. */
  ghost predicate AtMostOneFree(pieces: seq<Piece>, widths: Widths) {
    forall i, j | 0 <= i < j < |pieces| && pieces[i].field.Some? && pieces[j].field.Some? ::
      pieces[i].field.value in widths || pieces[j].field.value in widths
  }

  lemma {:induction false} FreeCountMeans(pieces: seq<Piece>, widths: Widths)
    ensures FreeCount(pieces, widths) <= 1 <==> AtMostOneFree(pieces, widths)
    ensures FreeCount(pieces, widths) == 0 <==>
              forall i | 0 <= i < |pieces| && pieces[i].field.Some? :: pieces[i].field.value in widths
  {
    if pieces != [] {
      var rest := pieces[1..];
      FreeCountMeans(rest, widths);
      assert pieces == [pieces[0]] + rest;
      assert forall i | 0 <= i < |rest| :: rest[i] == pieces[i + 1];
    }
  }

  /** With at most one field of varying length, equal identities mean equal values. */
  lemma OneFreeIsInjective(pieces: seq<Piece>, widths: Widths, v: Values, w: Values)
    requires Fits(v, pieces, widths) && Fits(w, pieces, widths) && AtMostOneFree(pieces, widths)
    requires Render(pieces, v) == Render(pieces, w)
    ensures SameValues(pieces, v, w)
  {
    FreeCountMeans(pieces, widths);
    OneCountedIsInjective(pieces, widths, v, w);
  }

  lemma {:induction false} OneCountedIsInjective(pieces: seq<Piece>, widths: Widths, v: Values, w: Values)
    requires Fits(v, pieces, widths) && Fits(w, pieces, widths) && FreeCount(pieces, widths) <= 1
    requires Render(pieces, v) == Render(pieces, w)
    ensures SameValues(pieces, v, w)
  {
    if pieces != [] {
      var piece, rest := pieces[0], pieces[1..];
      var a, b := ValueOf(v, piece), ValueOf(w, piece);
      if Free(piece, widths) {
        FixedLength(rest, widths, v, w);
      }
      assert |a| == |b|;
      SplitEqual(piece.literal, a, Render(rest, v), b, Render(rest, w));
      OneCountedIsInjective(rest, widths, v, w);
      assert pieces == [piece] + rest;
      assert forall i | 1 <= i < |pieces| :: pieces[i] == rest[i - 1];
    }
  }

  lemma SplitEqual(literal: string, a: string, x: string, b: string, y: string)
    requires literal + a + x == literal + b + y && |a| == |b|
    ensures a == b && x == y
  {
    var s := literal + a + x;
    assert s[|literal|..|literal| + |a|] == a && s[|literal| + |a|..] == x;
    assert s[|literal|..|literal| + |b|] == b && s[|literal| + |b|..] == y;
  }

  ghost predicate Mentions(pieces: seq<Piece>, name: string) {
    exists i :: 0 <= i < |pieces| && pieces[i].field == Some(name)
  }

  lemma RenderOfBoth(a: seq<Piece>, b: seq<Piece>, v: Values)
    requires Supplies(v, a) && Supplies(v, b)
    ensures Supplies(v, a + b) && Render(a + b, v) == Render(a, v) + Render(b, v)
  {
    if a == [] {
      assert a + b == b;
    } else {
      RenderOfBoth(a[1..], b, v);
      assert (a + b)[1..] == a[1..] + b;
    }
  }

  lemma RenderOne(piece: Piece, v: Values)
    requires piece.field.Some? ==> piece.field.value in v
    ensures Supplies(v, [piece]) && Render([piece], v) == piece.literal + ValueOf(v, piece)
  {
    var s := piece.literal + ValueOf(v, piece);
    assert [piece][1..] == [] && s + "" == s;
  }

  lemma {:induction false} OthersRenderAlike(pieces: seq<Piece>, v: Values, w: Values)
    requires Supplies(v, pieces) && Supplies(w, pieces)
    requires forall name | Mentions(pieces, name) :: v[name] == w[name]
    ensures Render(pieces, v) == Render(pieces, w)
  {
    if pieces != [] {
      assert pieces[0].field.Some? ==> Mentions(pieces, pieces[0].field.value);
      forall name | Mentions(pieces[1..], name)
        ensures Mentions(pieces, name)
      {
        var i :| 0 <= i < |pieces[1..]| && pieces[1..][i].field == Some(name);
        assert pieces[i + 1].field == Some(name);
      }
      OthersRenderAlike(pieces[1..], v, w);
    }
  }

  lemma FitsSupplies(v: Values, pieces: seq<Piece>, widths: Widths)
    requires Fits(v, pieces, widths)
    ensures Supplies(v, pieces)
  {
  }

  // ---------------------------------------------------------------------- chunk numbers

  const CHUNK: string := "chunk"

  /**
   A template that ends in the chunk number, after something that is not a digit, may have one free field
   besides: the number, though of no fixed width, is all the digits at the end.
   */
  lemma ChunkAtEndIsInjective(front: seq<Piece>, last: Piece, widths: Widths, v: Values, w: Values, n: nat, m: nat)
    requires last.field == Some(CHUNK) && last.literal != "" && !IsDigit(last.literal[|last.literal| - 1])
    requires Fits(v, front, widths) && Fits(w, front, widths) && AtMostOneFree(front, widths)
    requires CHUNK in v && CHUNK in w && v[CHUNK] == Padded(n) && w[CHUNK] == Padded(m)
    requires Supplies(v, front + [last]) && Supplies(w, front + [last])
    requires Render(front + [last], v) == Render(front + [last], w)
    ensures SameValues(front, v, w) && n == m
  {
    FitsSupplies(v, front, widths);
    FitsSupplies(w, front, widths);
    hide *;
    RenderedNumber(front, last, v, n);
    RenderedNumber(front, last, w, m);
    CutNumber(Render(front, v), Render(front, w), last.literal, n, m);
    OneFreeIsInjective(front, widths, v, w);
  }

  lemma CutNumber(a: string, b: string, literal: string, n: nat, m: nat)
    requires literal != "" && !IsDigit(literal[|literal| - 1])
    requires a + literal + Padded(n) == b + literal + Padded(m)
    ensures a == b && n == m
  {
    hide *;
    EndsAlike(a, literal);
    EndsAlike(b, literal);
    ValueOfPadded(n);
    ValueOfPadded(m);
    DigitsAtEnd(a + literal, Padded(n), b + literal, Padded(m));
    CutLiteral(a, b, literal);
  }

  lemma EndsAlike(a: string, literal: string)
    requires literal != ""
    ensures (a + literal)[|a + literal| - 1] == literal[|literal| - 1]
  {
  }

  lemma RenderedNumber(front: seq<Piece>, last: Piece, v: Values, n: nat)
    requires Supplies(v, front) && last.field == Some(CHUNK) && CHUNK in v && v[CHUNK] == Padded(n)
    ensures Supplies(v, front + [last]) && Render(front + [last], v) == Render(front, v) + last.literal + Padded(n)
  {
    RenderOne(last, v);
    RenderOfBoth(front, [last], v);
    hide Render, Padded;
    assert Render(front, v) + (last.literal + Padded(n)) == Render(front, v) + last.literal + Padded(n);
  }

  lemma CutLiteral(a: string, b: string, literal: string)
    requires a + literal == b + literal
    ensures a == b
  {
    assert |a| == |b|;
    assert a == (a + literal)[..|a|] && b == (b + literal)[..|b|];
  }

  const DEFAULT_PATTERN: string := "{source_hash}-{pipeline}-chunk-{chunk}"

  function DefaultFront(): seq<Piece> {
    [Piece("", Some("source_hash"), false), Piece("-", Some("pipeline"), false)]
  }

  function DefaultLast(): Piece {
    Piece("-chunk-", Some(CHUNK), false)
  }

  lemma DefaultPieces()
    ensures PrintPiece(DefaultFront()[0]) == "{source_hash}"
    ensures PrintPiece(DefaultFront()[1]) == "-{pipeline}"
    ensures PrintPiece(DefaultLast()) == "-chunk-{chunk}"
  {
  }

  lemma DefaultText()
    ensures "{source_hash}" + ("-{pipeline}" + ("-chunk-{chunk}" + "")) == DEFAULT_PATTERN
  {
    assert "-{pipeline}" + ("-chunk-{chunk}" + "") == "-{pipeline}-chunk-{chunk}";
  }

  lemma PrintsThree(a: Piece, b: Piece, c: Piece)
    ensures Print([a, b] + [c]) == PrintPiece(a) + (PrintPiece(b) + (PrintPiece(c) + ""))
  {
    hide PrintPiece;
    PrintPrepended(c, []);
    PrintPrepended(b, [c] + []);
    PrintPrepended(a, [b] + ([c] + []));
    assert [a] + ([b] + ([c] + [])) == [a, b] + [c];
  }

  lemma DefaultPrints()
    ensures Print(DefaultFront() + [DefaultLast()]) == DEFAULT_PATTERN
  {
    PrintsThree(DefaultFront()[0], DefaultFront()[1], DefaultLast());
    DefaultPieces();
    DefaultText();
    assert DefaultFront() == [DefaultFront()[0], DefaultFront()[1]];
    hide *;
  }

  lemma DefaultIsCanonical()
    ensures Canonical(DefaultFront() + [DefaultLast()])
  {
    assert PlainName("source_hash") && PlainName("pipeline") && PlainName(CHUNK);
    assert PlainText("") && PlainText("-") && PlainText("-chunk-");
    hide PlainName, PlainText;
  }

  lemma DefaultParses()
    ensures Parse(DEFAULT_PATTERN) == Some(DefaultFront() + [DefaultLast()])
  {
    hide *;
    DefaultPrints();
    DefaultIsCanonical();
    ParseOfPrint(DefaultFront() + [DefaultLast()]);
  }

  /** What a chunk id looks like: a digest, a pipeline and a chunk number, or the first two the other way round. */
  function ChunkId(first: string, second: string, n: nat): string {
    first + "-" + second + "-chunk-" + Padded(n)
  }

  lemma Spelled(a: string, b: string, d: string)
    ensures "" + a + ("-" + b) + "-chunk-" + d == a + "-" + b + "-chunk-" + d
  {
  }

  /** Two fields and the chunk number, joined as in the default pattern, render to a chunk id. */
  lemma RendersChunkId(f: string, g: string, v: Values, n: nat)
    requires f in v && g in v && CHUNK in v && v[CHUNK] == Padded(n)
    ensures var pieces := [Piece("", Some(f), false), Piece("-", Some(g), false)] + [DefaultLast()];
            Supplies(v, pieces) && Render(pieces, v) == ChunkId(v[f], v[g], n)
  {
    var x, y := Piece("", Some(f), false), Piece("-", Some(g), false);
    RenderOne(x, v);
    RenderOne(y, v);
    RenderOfBoth([x], [y], v);
    assert [x] + [y] == [x, y];
    RenderedNumber([x, y], DefaultLast(), v, n);
    hide Render, Padded;
    Spelled(v[f], v[g], Padded(n));
  }

  lemma DefaultRenders(v: Values, n: nat)
    requires "source_hash" in v && "pipeline" in v && CHUNK in v && v[CHUNK] == Padded(n)
    ensures Parse(DEFAULT_PATTERN).Some? && Supplies(v, Parse(DEFAULT_PATTERN).value)
    ensures Render(Parse(DEFAULT_PATTERN).value, v) == ChunkId(v["source_hash"], v["pipeline"], n)
  {
    DefaultParses();
    assert DefaultFront() == [Piece("", Some("source_hash"), false), Piece("-", Some("pipeline"), false)];
    hide *;
    RendersChunkId("source_hash", "pipeline", v, n);
  }

  lemma SameLengthFirst(a: string, b: string, c: string, d: string)
    requires a + "-" + b == c + "-" + d && |a| == |c|
    ensures a == c && b == d
  {
    var s := a + "-" + b;
    assert s[..|a|] == a && s[|a| + 1..] == b && s[..|c|] == c && s[|c| + 1..] == d;
  }

  lemma SameLengthLast(a: string, b: string, c: string, d: string)
    requires a + "-" + b == c + "-" + d && |b| == |d|
    ensures a == c && b == d
  {
    var s := a + "-" + b;
    assert |a| == |c|;
    SameLengthFirst(a, b, c, d);
  }

  /**
   With the default pattern, and with the ids used when there is none, different digest, pipeline or chunk
   number give different ids, wherever the digest stands: the digests have one length.
   */
  lemma DefaultIsInjective(a: string, b: string, n: nat, c: string, d: string, m: nat)
    requires ChunkId(a, b, n) == ChunkId(c, d, m) && (|a| == |c| || |b| == |d|)
    ensures a == c && b == d && n == m
  {
    CutNumber(a + "-" + b, c + "-" + d, "-chunk-", n, m);
    if |a| == |c| {
      SameLengthFirst(a, b, c, d);
    } else {
      SameLengthLast(a, b, c, d);
    }
  }

  /**
   `make_chunk_prefix` renders the template with an empty chunk number. The result is a prefix of the ids
   of all chunks exactly when nothing at all is rendered after the number.
   */
  lemma PrefixCoversIff(a: seq<Piece>, last: Piece, b: seq<Piece>, v: Values)
    requires last.field == Some(CHUNK) && !Mentions(a, CHUNK)
    requires Supplies(v[CHUNK := ""], a) && Supplies(v[CHUNK := ""], b)
    ensures (forall n: nat :: PrefixCovers(a, last, b, v, n)) <==> Render(b, v[CHUNK := ""]) == ""
  {
    var after := Render(b, v[CHUNK := ""]);
    forall n: nat
      ensures after == "" ==> PrefixCovers(a, last, b, v, n)
      ensures PrefixCovers(a, last, b, v, n) && after != "" ==> after[0] == Padded(n)[0]
    {
      PrefixMeans(a, last, b, v, n);
    }
    hide *;
    FirstDigits();
    assert after != "" ==> !PrefixCovers(a, last, b, v, 0) || !PrefixCovers(a, last, b, v, 100);
  }

  lemma PrefixMeans(a: seq<Piece>, last: Piece, b: seq<Piece>, v: Values, n: nat)
    requires last.field == Some(CHUNK) && !Mentions(a, CHUNK)
    requires Supplies(v[CHUNK := ""], a) && Supplies(v[CHUNK := ""], b)
    ensures var after := Render(b, v[CHUNK := ""]);
            && (after == "" ==> PrefixCovers(a, last, b, v, n))
            && (PrefixCovers(a, last, b, v, n) && after != "" ==> after[0] == Padded(n)[0])
  {
    var none, some := v[CHUNK := ""], v[CHUNK := Padded(n)];
    Around(a, last, b, none);
    Around(a, last, b, some);
    OthersRenderAlike(a, none, some);
    var before, after, rest := Render(a, none) + last.literal, Render(b, none), Render(b, some);
    hide Render, Padded, Supplies;
    assert Render(a + [last] + b, none) == before + "" + after;
    assert Render(a + [last] + b, some) == before + Padded(n) + rest;
    PrefixHead(before, after, Padded(n), rest);
  }

  lemma PrefixHead(before: string, after: string, d: string, rest: string)
    requires d != ""
    ensures after == "" ==> before + "" + after <= before + d + rest
    ensures before + "" + after <= before + d + rest && after != "" ==> after[0] == d[0]
  {
    var s, t := before + "" + after, before + d + rest;
    assert t[|before|] == d[0];
    if after != "" {
      assert s[|before|] == after[0];
    } else {
      assert s == before && t[..|before|] == before;
    }
  }

  lemma FirstDigits()
    ensures Padded(0)[0] == '0' && Padded(100)[0] == '1'
  {
    assert Decimal(1) == [Digit(1)];
    assert Decimal(10) == Decimal(1) + [Digit(0)];
    assert Decimal(100) == Decimal(10) + [Digit(0)];
  }

  ghost predicate PrefixCovers(a: seq<Piece>, last: Piece, b: seq<Piece>, v: Values, n: nat)
    requires last.field == Some(CHUNK) && Supplies(v[CHUNK := ""], a) && Supplies(v[CHUNK := ""], b)
  {
    var none, some := v[CHUNK := ""], v[CHUNK := Padded(n)];
    Supplies(none, a + [last] + b) && Supplies(some, a + [last] + b)
    && Render(a + [last] + b, none) <= Render(a + [last] + b, some)
  }

  lemma Around(a: seq<Piece>, last: Piece, b: seq<Piece>, v: Values)
    requires Supplies(v, a) && Supplies(v, b) && last.field == Some(CHUNK) && CHUNK in v
    ensures Supplies(v, a + [last] + b)
    ensures Render(a + [last] + b, v) == Render(a, v) + last.literal + v[CHUNK] + Render(b, v)
  {
    RenderOne(last, v);
    RenderOfBoth(a, [last], v);
    RenderOfBoth(a + [last], b, v);
    hide Render;
    assert Render(a, v) + (last.literal + v[CHUNK]) == Render(a, v) + last.literal + v[CHUNK];
  }

  // ---------------------------------------------------------------------- whose chunks the default prefix covers

  predicate IsHex(c: char) {
    '0' <= c <= '9' || 'a' <= c <= 'f'
  }

  lemma HexIs(c: char)
    ensures IsHex(c) <==> c in "0123456789abcdef"
  {
    var all := "0123456789abcdef";
    if IsHex(c) {
      assert all[if c <= '9' then c as int - '0' as int else c as int - 'a' as int + 10] == c;
    }
  }

  predicate Hex(s: string) {
    forall i | 0 <= i < |s| :: IsHex(s[i])
  }

  const MARK: string := "-chunk-"

  /** What `make_chunk_prefix` returns without a pattern; the chunks of the document have ids `ChunkId(p, h, n)`. */
  function DefaultPrefix(p: string, h: string): string {
    p + "-" + h + MARK
  }

  lemma MarkLetters()
    ensures |MARK| == 7 && MARK[0] == MARK[6] == '-'
    ensures MARK[1] == 'c' && MARK[2] == 'h' && MARK[3] == 'u' && MARK[4] == 'n' && MARK[5] == 'k'
  {
  }

  function IdWith(p: string, h: string, rest: string): string {
    p + "-" + h + MARK + rest
  }

  /** The characters of an id, or of a prefix, by place. */
  function CharAt(p: string, h: string, rest: string, i: nat): char
    requires i < |p| + |h| + 8 + |rest|
  {
    if i < |p| then p[i]
    else if i == |p| then '-'
    else if i <= |p| + |h| then h[i - |p| - 1]
    else if i <= |p| + |h| + 7 then MARK[i - |p| - |h| - 1]
    else rest[i - |p| - |h| - 8]
  }

  lemma Places(p: string, h: string, rest: string, i: nat)
    ensures |IdWith(p, h, rest)| == |p| + |h| + 8 + |rest|
    ensures i < |IdWith(p, h, rest)| ==> IdWith(p, h, rest)[i] == CharAt(p, h, rest, i)
  {
  }

  lemma NoPrefix(x: string, y: string, i: nat)
    requires i < |x| && (i < |y| ==> x[i] != y[i])
    ensures !(x <= y)
  {
  }

  /** A longer pipeline id than the chunk's cannot be the prefix's: the mark would have to stand among digits. */
  lemma NotLonger(p: string, h: string, q: string, g: string, digits: string)
    requires |h| == |g| && AllDigits(digits) && |p| > |q|
    ensures !(IdWith(p, h, "") <= IdWith(q, g, digits))
  {
    var i := if |p| - |q| == 6 then |p| + 2 + |h| else |p| + 1 + |h|;
    Places(p, h, "", i);
    Places(q, g, digits, i);
    MarkLetters();
    hide IdWith;
    NoPrefix(IdWith(p, h, ""), IdWith(q, g, digits), i);
  }

  /** A shorter one must be followed, in the chunk's pipeline id, by digest and mark. */
  lemma NotCutShort(p: string, h: string, q: string, g: string, digits: string)
    requires 2 <= |h| == |g| && Hex(h) && Hex(g) && |p| < |q| < |p| + |h| + 7
    ensures !(IdWith(p, h, "") <= IdWith(q, g, digits))
  {
    var i := if |q| == |p| + |h| + 1 then |q| + 2 else |q|;
    Places(p, h, "", i);
    Places(q, g, digits, i);
    MarkLetters();
    hide IdWith;
    NoPrefix(IdWith(p, h, ""), IdWith(q, g, digits), i);
  }

  /**
   Whose chunks the default prefix of a document covers: those of the document itself, and those of every
   pipeline whose id goes on like a chunk id of this one, up to the number.
   */
  lemma DefaultPrefixCoversIff(p: string, h: string, q: string, g: string, n: nat)
    requires 2 <= |h| == |g| && Hex(h) && Hex(g)
    ensures DefaultPrefix(p, h) <= ChunkId(q, g, n) <==> (p == q && h == g) || DefaultPrefix(p, h) <= q + "-"
  {
    var digits := Padded(n);
    assert ChunkId(q, g, n) == IdWith(q, g, digits) && DefaultPrefix(p, h) == IdWith(p, h, "");
    hide ChunkId, Padded, Hex, DefaultPrefix;
    if |p| > |q| {
      NotLonger(p, h, q, g, digits);
    } else if |p| < |q| < |p| + |h| + 7 {
      NotCutShort(p, h, q, g, digits);
    } else if |p| < |q| {
      assert IdWith(q, g, digits)[..|q| + 1] == q + "-";
    } else {
      SamePipeline(p, h, q, g, digits);
    }
  }

  lemma SamePipeline(p: string, h: string, q: string, g: string, digits: string)
    requires |p| == |q| && |h| == |g|
    ensures IdWith(p, h, "") <= IdWith(q, g, digits) <==> p == q && h == g
  {
    var x, y := IdWith(p, h, ""), IdWith(q, g, digits);
    assert x[..|p|] == p && y[..|p|] == q;
    assert x[|p| + 1..|p| + 1 + |h|] == h && y[|p| + 1..|p| + 1 + |h|] == g;
    if p == q && h == g {
      assert x == y[..|x|];
    } else {
      assert x[..|p| + 1 + |h|] != y[..|p| + 1 + |h|];
    }
  }

  /** A pipeline whose chunks the cleanup of another pipeline's document would take along. */
  lemma ForeignChunksCovered(h: string, g: string, n: nat)
    requires |h| == |g| == 12 && Hex(h) && Hex(g)
    ensures DefaultPrefix("a", h) <= ChunkId("a-" + h + "-chunk", g, n)
  {
    DefaultPrefixCoversIff("a", h, "a-" + h + "-chunk", g, n);
    assert "a-" + h + "-chunk" + "-" == DefaultPrefix("a", h);
  }
}
