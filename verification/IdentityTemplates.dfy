/**
 Which templates keep documents apart (api/api.py). The values a template uses all come from one request:
 some names are its texts as they are, some are digests of them, one is the padded chunk number.
 */
module IdentityTemplates {
  import opened Outcomes
  import opened Digits
  import opened IdentityPattern

  datatype Input = SourceRef | SourceId | SourcePartition | PipelineId | DestinationId | ModelId | MessageId

  datatype Request = Request(
    sourceRef: string, sourceId: string, sourcePartition: string, pipelineId: string, destinationId: string,
    modelId: string, messageId: string, chunkIndex: nat)

  function TextOf(r: Request, i: Input): string {
    match i
    case SourceRef => r.sourceRef
    case SourceId => r.sourceId
    case SourcePartition => r.sourcePartition
    case PipelineId => r.pipelineId
    case DestinationId => r.destinationId
    case ModelId => r.modelId
    case MessageId => r.messageId
  }

  function Replaced(r: Request, i: Input, s: string): (n: Request)
    ensures forall j :: TextOf(n, j) == if i == j then s else TextOf(r, j)
    ensures n.chunkIndex == r.chunkIndex
  {
    match i
    case SourceRef => r.(sourceRef := s)
    case SourceId => r.(sourceId := s)
    case SourcePartition => r.(sourcePartition := s)
    case PipelineId => r.(pipelineId := s)
    case DestinationId => r.(destinationId := s)
    case ModelId => r.(modelId := s)
    case MessageId => r.(messageId := s)
  }

  /** One stretch of an identity: literal text, a text of the request, the front of its digest, the chunk number. */
  datatype Atom = Literal(s: string) | Free(input: Input) | Hash(input: Input, width: nat) | Count

  const NAMES: set<string> := {
    "source", "source_ref", "source_hash", "source_id", "source_partition", "pipeline", "pipeline_hash",
    "destination", "destination_hash", "model", "model_hash", "job", "chunk"}

  /** Where the value of a name comes from: the table in `_identity_values`. */
  function OriginOf(name: string): Atom {
    if name == "source" || name == "source_ref" then Free(SourceRef)
    else if name == "source_hash" then Hash(SourceRef, 64)
    else if name == "source_id" then Free(SourceId)
    else if name == "source_partition" then Free(SourcePartition)
    else if name == "pipeline" then Free(PipelineId)
    else if name == "pipeline_hash" then Hash(PipelineId, 16)
    else if name == "destination" then Free(DestinationId)
    else if name == "destination_hash" then Hash(DestinationId, 16)
    else if name == "model" then Free(ModelId)
    else if name == "model_hash" then Hash(ModelId, 16)
    else if name == "job" then Free(MessageId)
    else if name == "chunk" then Count
    else Literal("")
  }

  function Cut(s: string, width: nat): string {
    if width <= |s| then s[..width] else s
  }

  /** A digest function; of SHA-256 only the width of its hexadecimal form is used. */
  type Digester = string -> string

  ghost predicate FixedWidth(d: Digester) {
    forall s :: |d(s)| == 64
  }

  function Show(d: Digester, r: Request, a: Atom): string {
    match a
    case Literal(s) => s
    case Free(i) => TextOf(r, i)
    case Hash(i, width) => Cut(d(TextOf(r, i)), width)
    case Count => Padded(r.chunkIndex)
  }

  /** `_identity_values`. */
  function ValuesFor(d: Digester, r: Request): Values {
    map name | name in NAMES :: Show(d, r, OriginOf(name))
  }

  /** The table name by name: three texts and the message as they are, the number padded, and the digests cut. */
  lemma ValuesAre(d: Digester, r: Request)
    requires FixedWidth(d)
    ensures var v := ValuesFor(d, r);
            && v.Keys == {"source", "source_ref", "source_hash", "source_id", "source_partition", "pipeline",
                          "pipeline_hash", "destination", "destination_hash", "model", "model_hash", "job", "chunk"}
            && v["source"] == v["source_ref"] == r.sourceRef && v["source_hash"] == d(r.sourceRef)
            && v["source_id"] == r.sourceId && v["source_partition"] == r.sourcePartition
            && v["pipeline"] == r.pipelineId && v["pipeline_hash"] == d(r.pipelineId)[..16]
            && v["destination"] == r.destinationId && v["destination_hash"] == d(r.destinationId)[..16]
            && v["model"] == r.modelId && v["model_hash"] == d(r.modelId)[..16]
            && v["job"] == r.messageId && v["chunk"] == Padded(r.chunkIndex)
  {
    assert d(r.sourceRef)[..64] == d(r.sourceRef);
  }

  ghost predicate Known(pieces: seq<Piece>) {
    forall i | 0 <= i < |pieces| :: pieces[i].field.Some? ==> pieces[i].field.value in NAMES
  }

  function AtomsOf(pieces: seq<Piece>): seq<Atom> {
    if pieces == [] then []
    else
      var rest := AtomsOf(pieces[1..]);
      if pieces[0].field.None? then [Literal(pieces[0].literal)] + rest
      else [Literal(pieces[0].literal), OriginOf(pieces[0].field.value)] + rest
  }

  function Spell(d: Digester, r: Request, atoms: seq<Atom>): string {
    if atoms == [] then "" else Show(d, r, atoms[0]) + Spell(d, r, atoms[1..])
  }

  lemma SpellFirst(d: Digester, r: Request, atoms: seq<Atom>)
    requires atoms != []
    ensures Spell(d, r, atoms) == Show(d, r, atoms[0]) + Spell(d, r, atoms[1..])
  {
  }

  lemma Associated(a: string, b: string, c: string)
    ensures a + b + c == a + (b + c)
  {
  }

  lemma {:induction false} SpellBoth(d: Digester, r: Request, a: seq<Atom>, b: seq<Atom>)
    ensures Spell(d, r, a + b) == Spell(d, r, a) + Spell(d, r, b)
  {
    if a == [] {
      assert a + b == b && Spell(d, r, a) == "";
      assert "" + Spell(d, r, b) == Spell(d, r, b);
    } else {
      hide *;
      SpellBoth(d, r, a[1..], b);
      assert (a + b)[1..] == a[1..] + b && (a + b)[0] == a[0];
      SpellFirst(d, r, a + b);
      SpellFirst(d, r, a);
      Associated(Show(d, r, a[0]), Spell(d, r, a[1..]), Spell(d, r, b));
    }
  }

  lemma SpellOne(d: Digester, r: Request, a: Atom)
    ensures Spell(d, r, [a]) == Show(d, r, a)
  {
    hide Show;
    assert [a][1..] == [] && Show(d, r, a) + "" == Show(d, r, a);
  }

  lemma SpellLast(d: Digester, r: Request, atoms: seq<Atom>)
    requires atoms != []
    ensures Spell(d, r, atoms) == Spell(d, r, atoms[..|atoms| - 1]) + Show(d, r, atoms[|atoms| - 1])
  {
    var front, last := atoms[..|atoms| - 1], atoms[|atoms| - 1];
    assert atoms == front + [last];
    hide *;
    SpellBoth(d, r, front, [last]);
    SpellOne(d, r, last);
  }

  /** Rendering a template with the values of a request spells its atoms. */
  lemma {:induction false} RenderIsSpell(pieces: seq<Piece>, d: Digester, r: Request)
    requires Known(pieces)
    ensures Supplies(ValuesFor(d, r), pieces) && Render(pieces, ValuesFor(d, r)) == Spell(d, r, AtomsOf(pieces))
  {
    if pieces != [] {
      var piece, rest := pieces[0], pieces[1..];
      RenderIsSpell(rest, d, r);
      hide OriginOf, Show;
      assert Literal(piece.literal) == [Literal(piece.literal)][0];
      ShowLiteral(d, r, piece.literal);
      if piece.field.None? {
        SpellBoth(d, r, [Literal(piece.literal)], AtomsOf(rest));
        SpellOne(d, r, Literal(piece.literal));
        assert piece.literal + "" == piece.literal;
      } else {
        var o := OriginOf(piece.field.value);
        assert [Literal(piece.literal), o] == [Literal(piece.literal)] + [o];
        SpellBoth(d, r, [Literal(piece.literal)], [o]);
        SpellBoth(d, r, [Literal(piece.literal), o], AtomsOf(rest));
        SpellOne(d, r, Literal(piece.literal));
        SpellOne(d, r, o);
      }
    }
  }

  lemma ShowLiteral(d: Digester, r: Request, s: string)
    ensures Show(d, r, Literal(s)) == s
  {
  }

  // ---------------------------------------------------------------------- the condition, read off the template

  predicate HasOther(s: string) {
    exists i :: 0 <= i < |s| && !IsDigit(s[i])
  }

  /** Of the same width in two identities whose requests agree on the known inputs. */
  predicate Settled(a: Atom, known: set<Input>) {
    a.Literal? || a.Hash? || (a.Free? && a.input in known)
  }

  /** Equal digests give away their input. */
  function Learned(a: Atom, known: set<Input>): set<Input> {
    if a.Hash? then known + {a.input} else known
  }

  /** A chunk number at the end, after text that is not all digits. */
  predicate NumberLast(atoms: seq<Atom>) {
    && |atoms| >= 2 && atoms[|atoms| - 1].Count?
    && atoms[|atoms| - 2].Literal? && HasOther(atoms[|atoms| - 2].s)
  }

  /** A chunk number at the beginning, before text that is not all digits. */
  predicate NumberFirst(atoms: seq<Atom>) {
    |atoms| >= 2 && atoms[0].Count? && atoms[1].Literal? && HasOther(atoms[1].s)
  }

  datatype Rest = Rest(atoms: seq<Atom>, known: set<Input>)

  /** What is left of a template when settled stretches are taken off at both ends as long as there are any. */
  function Core(atoms: seq<Atom>, known: set<Input>): Rest {
    if atoms == [] then Rest(atoms, known)
    else
      var last := |atoms| - 1;
      if NumberLast(atoms) then Core(atoms[..last], known)
      else if Settled(atoms[last], known) then Core(atoms[..last], Learned(atoms[last], known))
      else if NumberFirst(atoms) then Core(atoms[1..], known)
      else if Settled(atoms[0], known) then Core(atoms[1..], Learned(atoms[0], known))
      else Rest(atoms, known)
  }

  /** At most one thing is still unknown, a text or the chunk number, however often it is spelled out. */
  predicate OneLeft(rest: Rest) {
    forall i | 0 <= i < |rest.atoms| :: Settled(rest.atoms[i], rest.known) || rest.atoms[i] == rest.atoms[0]
  }

  predicate Separable(atoms: seq<Atom>) {
    OneLeft(Core(atoms, {}))
  }

  // ---------------------------------------------------------------------- keeping requests apart

  /** No two different texts of the two requests have digests that begin alike. */
  ghost predicate NoCollision(d: Digester, r: Request, q: Request) {
    forall i :: Cut(d(TextOf(r, i)), 16) == Cut(d(TextOf(q, i)), 16) ==> TextOf(r, i) == TextOf(q, i)
  }

  ghost predicate Agree(r: Request, q: Request, known: set<Input>) {
    forall i | i in known :: TextOf(r, i) == TextOf(q, i)
  }

  /** The two requests have the same of whatever the atom stands for. */
  ghost predicate SameOf(r: Request, q: Request, a: Atom) {
    match a
    case Literal(_) => true
    case Free(i) => TextOf(r, i) == TextOf(q, i)
    case Hash(i, _) => TextOf(r, i) == TextOf(q, i)
    case Count => r.chunkIndex == q.chunkIndex
  }

  ghost predicate SameUsed(r: Request, q: Request, atoms: seq<Atom>) {
    forall i | 0 <= i < |atoms| :: SameOf(r, q, atoms[i])
  }

  ghost predicate Wide(atoms: seq<Atom>) {
    forall i | 0 <= i < |atoms| && atoms[i].Hash? :: 16 <= atoms[i].width <= 64
  }

  /** Equal identities come from requests that agree in all the template uses, whatever the digest function. */
  ghost predicate Separates(pieces: seq<Piece>)
    requires Known(pieces)
  {
    forall d: Digester, r, q | FixedWidth(d) && NoCollision(d, r, q) && SameIdentity(pieces, d, r, q) ::
      SameUsed(r, q, AtomsOf(pieces))
  }

  ghost predicate SameIdentity(pieces: seq<Piece>, d: Digester, r: Request, q: Request) {
    && Supplies(ValuesFor(d, r), pieces) && Supplies(ValuesFor(d, q), pieces)
    && Render(pieces, ValuesFor(d, r)) == Render(pieces, ValuesFor(d, q))
  }

  lemma {:induction false} AtomsAreWide(pieces: seq<Piece>)
    ensures Wide(AtomsOf(pieces))
  {
    if pieces != [] {
      AtomsAreWide(pieces[1..]);
    }
  }

  // ---------------------------------------------------------------------- separable templates do

  lemma HashTells(d: Digester, r: Request, q: Request, a: Atom)
    requires FixedWidth(d) && NoCollision(d, r, q) && a.Hash? && 16 <= a.width <= 64
    requires Show(d, r, a) == Show(d, q, a)
    ensures SameOf(r, q, a)
  {
    var x, y := d(TextOf(r, a.input)), d(TextOf(q, a.input));
    assert x[..a.width][..16] == x[..16] && y[..a.width][..16] == y[..16];
  }

  lemma SettledWidth(d: Digester, r: Request, q: Request, a: Atom, known: set<Input>)
    requires FixedWidth(d) && Agree(r, q, known) && Settled(a, known)
    ensures |Show(d, r, a)| == |Show(d, q, a)|
  {
  }

  lemma SettledTells(d: Digester, r: Request, q: Request, a: Atom, known: set<Input>)
    requires FixedWidth(d) && NoCollision(d, r, q) && Agree(r, q, known) && Settled(a, known)
    requires (a.Hash? ==> 16 <= a.width <= 64) && Show(d, r, a) == Show(d, q, a)
    ensures SameOf(r, q, a) && Agree(r, q, Learned(a, known))
  {
    if a.Hash? {
      HashTells(d, r, q, a);
    }
  }

  lemma SameSuffix(a: string, x: string, b: string, y: string)
    requires a + x == b + y && |x| == |y|
    ensures a == b && x == y
  {
    var s := a + x;
    assert |a| == |b|;
    assert s[..|a|] == a && s[..|b|] == b && s[|a|..] == x && s[|b|..] == y;
  }

  lemma SamePrefix(a: string, x: string, b: string, y: string)
    requires a + x == b + y && |a| == |b|
    ensures a == b && x == y
  {
    var s := a + x;
    assert s[..|a|] == a && s[..|b|] == b && s[|a|..] == x && s[|b|..] == y;
  }

  function LastOther(s: string): (i: nat)
    requires HasOther(s)
    ensures i < |s| && !IsDigit(s[i]) && forall j | i < j < |s| :: IsDigit(s[j])
  {
    if !IsDigit(s[|s| - 1]) then |s| - 1
    else
      var front := s[..|s| - 1];
      var j :| 0 <= j < |s| && !IsDigit(s[j]);
      assert !IsDigit(front[j]);
      LastOther(front)
  }

  /** The number at the end is all that follows the last other character. */
  lemma NumberTells(a: string, b: string, literal: string, n: nat, m: nat)
    requires HasOther(literal) && a + literal + Padded(n) == b + literal + Padded(m)
    ensures a == b && n == m
  {
    var i := LastOther(literal);
    var s, x, y := a + literal + Padded(n), Padded(n), Padded(m);
    assert s[|a| + i] == literal[i] && s[|b| + i] == literal[i];
    assert forall j | |a| + i < j < |s| :: IsDigit(s[j]) by { DigitsAfter(a, literal, x, i); }
    assert forall j | |b| + i < j < |s| :: IsDigit(s[j]) by { DigitsAfter(b, literal, y, i); }
    assert |a| == |b|;
    hide LastOther, Padded;
    SamePrefix(a + literal, x, b + literal, y);
    SamePrefix(a, literal, b, literal);
    ValueOfPadded(n);
    ValueOfPadded(m);
  }

  lemma DigitsAfter(a: string, literal: string, x: string, i: nat)
    requires i < |literal| && (forall j | i < j < |literal| :: IsDigit(literal[j])) && AllDigits(x)
    ensures forall j | |a| + i < j < |a + literal + x| :: IsDigit((a + literal + x)[j])
  {
  }

  function FirstOther(s: string): (i: nat)
    requires HasOther(s)
    ensures i < |s| && !IsDigit(s[i]) && forall j | 0 <= j < i :: IsDigit(s[j])
  {
    if !IsDigit(s[0]) then 0
    else
      var rest := s[1..];
      var j :| 0 <= j < |s| && !IsDigit(s[j]);
      assert !IsDigit(rest[j - 1]);
      FirstOther(rest) + 1
  }

  /** The number at the beginning is all that comes before the first other character. */
  lemma FirstNumberTells(a: string, b: string, literal: string, n: nat, m: nat)
    requires HasOther(literal) && Padded(n) + (literal + a) == Padded(m) + (literal + b)
    ensures n == m && literal + a == literal + b
  {
    var i := FirstOther(literal);
    var s, x, y := Padded(n) + (literal + a), Padded(n), Padded(m);
    assert s[|x| + i] == literal[i] && s[|y| + i] == literal[i];
    assert forall j | 0 <= j < |x| + i :: IsDigit(s[j]) by { DigitsBefore(x, literal, a, i); }
    assert forall j | 0 <= j < |y| + i :: IsDigit(s[j]) by { DigitsBefore(y, literal, b, i); }
    assert |x| == |y|;
    hide FirstOther, Padded;
    SamePrefix(x, literal + a, y, literal + b);
    ValueOfPadded(n);
    ValueOfPadded(m);
  }

  lemma DigitsBefore(x: string, literal: string, a: string, i: nat)
    requires i < |literal| && (forall j | 0 <= j < i :: IsDigit(literal[j])) && AllDigits(x)
    ensures forall j | 0 <= j < |x| + i :: IsDigit((x + (literal + a))[j])
  {
  }

  /** After the chunk number at the beginning: the number is told, and the rest is spelled alike. */
  lemma TakeFirstNumber(d: Digester, r: Request, q: Request, atoms: seq<Atom>)
    requires NumberFirst(atoms) && Spell(d, r, atoms) == Spell(d, q, atoms)
    ensures Spell(d, r, atoms[1..]) == Spell(d, q, atoms[1..]) && r.chunkIndex == q.chunkIndex
  {
    var rest, literal := atoms[1..], atoms[1].s;
    assert rest[0] == Literal(literal);
    assert Show(d, r, rest[0]) == literal == Show(d, q, rest[0]);
    assert Show(d, r, Count) == Padded(r.chunkIndex) && Show(d, q, Count) == Padded(q.chunkIndex);
    SpellFirst(d, r, atoms);
    SpellFirst(d, q, atoms);
    SpellFirst(d, r, rest);
    SpellFirst(d, q, rest);
    hide Spell, Show, Padded, HasOther;
    FirstNumberTells(Spell(d, r, rest[1..]), Spell(d, q, rest[1..]), literal, r.chunkIndex, q.chunkIndex);
  }

  /** Before the chunk number at the end: the number is told, and the rest is spelled alike. */
  lemma TakeNumber(d: Digester, r: Request, q: Request, atoms: seq<Atom>)
    requires NumberLast(atoms) && Spell(d, r, atoms) == Spell(d, q, atoms)
    ensures var front := atoms[..|atoms| - 1];
            Spell(d, r, front) == Spell(d, q, front) && r.chunkIndex == q.chunkIndex
  {
    var front := atoms[..|atoms| - 1];
    var literal, a := front[|front| - 1].s, front[..|front| - 1];
    assert Show(d, r, front[|front| - 1]) == literal == Show(d, q, front[|front| - 1]);
    assert Show(d, r, Count) == Padded(r.chunkIndex) && Show(d, q, Count) == Padded(q.chunkIndex);
    hide Spell, Show, Padded, HasOther;
    SpellLast(d, r, atoms);
    SpellLast(d, q, atoms);
    SpellLast(d, r, front);
    SpellLast(d, q, front);
    NumberTells(Spell(d, r, a), Spell(d, q, a), literal, r.chunkIndex, q.chunkIndex);
  }

  lemma TakeLast(d: Digester, r: Request, q: Request, atoms: seq<Atom>, known: set<Input>)
    requires FixedWidth(d) && NoCollision(d, r, q) && Agree(r, q, known) && Wide(atoms)
    requires atoms != [] && Settled(atoms[|atoms| - 1], known) && Spell(d, r, atoms) == Spell(d, q, atoms)
    ensures var front, last := atoms[..|atoms| - 1], atoms[|atoms| - 1];
            Spell(d, r, front) == Spell(d, q, front) && SameOf(r, q, last) && Agree(r, q, Learned(last, known))
  {
    var front, last := atoms[..|atoms| - 1], atoms[|atoms| - 1];
    SettledWidth(d, r, q, last, known);
    hide Spell, Show, SameOf, Learned, Settled, FixedWidth, NoCollision, Agree;
    SpellLast(d, r, atoms);
    SpellLast(d, q, atoms);
    SameSuffix(Spell(d, r, front), Show(d, r, last), Spell(d, q, front), Show(d, q, last));
    SettledTells(d, r, q, last, known);
  }

  lemma TakeFirst(d: Digester, r: Request, q: Request, atoms: seq<Atom>, known: set<Input>)
    requires FixedWidth(d) && NoCollision(d, r, q) && Agree(r, q, known) && Wide(atoms)
    requires atoms != [] && Settled(atoms[0], known) && Spell(d, r, atoms) == Spell(d, q, atoms)
    ensures Spell(d, r, atoms[1..]) == Spell(d, q, atoms[1..]) && SameOf(r, q, atoms[0])
    ensures Agree(r, q, Learned(atoms[0], known))
  {
    SettledWidth(d, r, q, atoms[0], known);
    hide Show, SameOf, Learned, Settled, FixedWidth, NoCollision, Agree;
    SamePrefix(Show(d, r, atoms[0]), Spell(d, r, atoms[1..]), Show(d, q, atoms[0]), Spell(d, q, atoms[1..]));
    SettledTells(d, r, q, atoms[0], known);
  }

  /** Something a template can leave unknown: a text or the chunk number. */
  predicate Unknown(u: Atom) {
    u.Free? || u.Count?
  }

  /** All that is unknown among these atoms is this. */
  ghost predicate OnlyUnknown(atoms: seq<Atom>, known: set<Input>, u: Atom) {
    Unknown(u) && forall i | 0 <= i < |atoms| :: Settled(atoms[i], known) || atoms[i] == u
  }

  lemma ShownAlike(d: Digester, r: Request, q: Request, u: Atom)
    requires Unknown(u) && Show(d, r, u) == Show(d, q, u)
    ensures SameOf(r, q, u)
  {
    hide Padded, Value;
    if u.Count? {
      ValueOfPadded(r.chunkIndex);
      ValueOfPadded(q.chunkIndex);
    }
  }

  lemma {:induction false} ShorterText(d: Digester, r: Request, q: Request, atoms: seq<Atom>, known: set<Input>,
                                       u: Atom)
    requires FixedWidth(d) && Agree(r, q, known) && OnlyUnknown(atoms, known, u)
    requires |Show(d, r, u)| <= |Show(d, q, u)|
    ensures |Spell(d, r, atoms)| <= |Spell(d, q, atoms)|
    ensures u in atoms && |Show(d, r, u)| < |Show(d, q, u)| ==> |Spell(d, r, atoms)| < |Spell(d, q, atoms)|
  {
    if atoms != [] {
      ShorterText(d, r, q, atoms[1..], known, u);
      SpellFirst(d, r, atoms);
      SpellFirst(d, q, atoms);
      if atoms[0] != u {
        SettledWidth(d, r, q, atoms[0], known);
      }
      hide FixedWidth, Agree, Settled, Show, Spell;
    }
  }

  lemma {:induction false} SameWidths(d: Digester, r: Request, q: Request, atoms: seq<Atom>, known: set<Input>,
                                      u: Atom)
    requires FixedWidth(d) && NoCollision(d, r, q) && Agree(r, q, known) && Wide(atoms)
    requires OnlyUnknown(atoms, known, u) && |Show(d, r, u)| == |Show(d, q, u)|
    requires Spell(d, r, atoms) == Spell(d, q, atoms)
    ensures SameUsed(r, q, atoms)
  {
    if atoms != [] {
      var rest := atoms[1..];
      OneTells(d, r, q, atoms, known, u);
      hide Spell, Show, SameOf, FixedWidth, NoCollision, Agree, Settled;
      assert forall i | 0 <= i < |rest| :: rest[i] == atoms[i + 1];
      SameWidths(d, r, q, rest, known, u);
      forall i | 0 <= i < |atoms|
        ensures SameOf(r, q, atoms[i])
      {
        if i > 0 {
          assert SameOf(r, q, rest[i - 1]);
        }
      }
    }
  }

  lemma OneTells(d: Digester, r: Request, q: Request, atoms: seq<Atom>, known: set<Input>, u: Atom)
    requires FixedWidth(d) && NoCollision(d, r, q) && Agree(r, q, known) && Wide(atoms) && atoms != []
    requires OnlyUnknown(atoms, known, u) && |Show(d, r, u)| == |Show(d, q, u)|
    requires Spell(d, r, atoms) == Spell(d, q, atoms)
    ensures SameOf(r, q, atoms[0]) && Spell(d, r, atoms[1..]) == Spell(d, q, atoms[1..])
  {
    if Settled(atoms[0], known) {
      TakeFirst(d, r, q, atoms, known);
    } else {
      SpellFirst(d, r, atoms);
      SpellFirst(d, q, atoms);
      hide FixedWidth, NoCollision, Agree, Show, SameOf, Spell;
      SamePrefix(Show(d, r, u), Spell(d, r, atoms[1..]), Show(d, q, u), Spell(d, q, atoms[1..]));
      ShownAlike(d, r, q, u);
    }
  }

  /** A core with one unknown thing, however often: its length is what the rest leaves. */
  lemma OneLeftTells(d: Digester, r: Request, q: Request, rest: Rest)
    requires FixedWidth(d) && NoCollision(d, r, q) && Agree(r, q, rest.known) && Wide(rest.atoms)
    requires OneLeft(rest) && rest.atoms != [] && !Settled(rest.atoms[0], rest.known)
    requires Spell(d, r, rest.atoms) == Spell(d, q, rest.atoms)
    ensures SameUsed(r, q, rest.atoms)
  {
    var u := rest.atoms[0];
    assert u in rest.atoms;
    assert OnlyUnknown(rest.atoms, rest.known, u);
    hide OneLeft, OnlyUnknown, Spell, Show, SameUsed, FixedWidth, NoCollision, Agree, Wide;
    if |Show(d, r, u)| <= |Show(d, q, u)| {
      ShorterText(d, r, q, rest.atoms, rest.known, u);
    } else {
      AgreeBack(r, q, rest.known);
      ShorterText(d, q, r, rest.atoms, rest.known, u);
    }
    SameWidths(d, r, q, rest.atoms, rest.known, u);
  }

  lemma AgreeBack(r: Request, q: Request, known: set<Input>)
    requires Agree(r, q, known)
    ensures Agree(q, r, known)
  {
  }

  lemma UsedFront(r: Request, q: Request, atoms: seq<Atom>)
    requires atoms != []
    ensures SameUsed(r, q, atoms)
            <==> SameUsed(r, q, atoms[..|atoms| - 1]) && SameOf(r, q, atoms[|atoms| - 1])
    ensures SameUsed(r, q, atoms) <==> SameOf(r, q, atoms[0]) && SameUsed(r, q, atoms[1..])
  {
    hide SameOf;
    var front, rest := atoms[..|atoms| - 1], atoms[1..];
    assert forall i | 0 <= i < |front| :: front[i] == atoms[i];
    forall i | 0 <= i < |atoms|
      ensures SameOf(r, q, atoms[0]) && SameUsed(r, q, rest) ==> SameOf(r, q, atoms[i])
    {
      assert i > 0 ==> rest[i - 1] == atoms[i];
    }
    assert forall i | 0 <= i < |rest| :: rest[i] == atoms[i + 1];
  }

  lemma {:induction false} CoreTells(d: Digester, r: Request, q: Request, atoms: seq<Atom>, known: set<Input>)
    requires FixedWidth(d) && NoCollision(d, r, q) && Agree(r, q, known) && Wide(atoms)
    requires Spell(d, r, atoms) == Spell(d, q, atoms) && OneLeft(Core(atoms, known))
    ensures SameUsed(r, q, atoms)
    decreases |atoms|
  {
    if atoms != [] {
      var last := |atoms| - 1;
      UsedFront(r, q, atoms);
      hide FixedWidth, NoCollision, Agree, Spell, SameUsed, OneLeft, Settled, NumberLast, NumberFirst, Learned;
      if NumberLast(atoms) {
        TakeNumber(d, r, q, atoms);
        CoreTells(d, r, q, atoms[..last], known);
        CountIsLast(atoms);
      } else if Settled(atoms[last], known) {
        TakeLast(d, r, q, atoms, known);
        CoreTells(d, r, q, atoms[..last], Learned(atoms[last], known));
      } else if NumberFirst(atoms) {
        TakeFirstNumber(d, r, q, atoms);
        CoreTells(d, r, q, atoms[1..], known);
        CountIsFirst(atoms);
      } else if Settled(atoms[0], known) {
        TakeFirst(d, r, q, atoms, known);
        CoreTells(d, r, q, atoms[1..], Learned(atoms[0], known));
      } else {
        OneLeftTells(d, r, q, Rest(atoms, known));
      }
    }
  }

  lemma CountIsLast(atoms: seq<Atom>)
    requires NumberLast(atoms)
    ensures atoms[|atoms| - 1] == Count
  {
  }

  lemma CountIsFirst(atoms: seq<Atom>)
    requires NumberFirst(atoms)
    ensures atoms[0] == Count
  {
  }

  /** A separable template keeps requests apart; this holds of every template, whatever it names how often. */
  lemma SeparableSeparates(pieces: seq<Piece>)
    requires Known(pieces) && Separable(AtomsOf(pieces))
    ensures Separates(pieces)
  {
    AtomsAreWide(pieces);
    hide AtomsOf, Core, OneLeft, FixedWidth, NoCollision, Wide, SameUsed;
    forall d: Digester, r, q | FixedWidth(d) && NoCollision(d, r, q) && SameIdentity(pieces, d, r, q)
      ensures SameUsed(r, q, AtomsOf(pieces))
    {
      RenderIsSpell(pieces, d, r);
      RenderIsSpell(pieces, d, q);
      CoreTells(d, r, q, AtomsOf(pieces), {});
    }
  }

  // ---------------------------------------------------------------------- the others do not

  /** No text is spelled out twice. */
  ghost predicate SpelledOnce(atoms: seq<Atom>) {
    forall i, j | 0 <= i < j < |atoms| && atoms[i].Free? && atoms[j].Free? :: atoms[i].input != atoms[j].input
  }

  /** Nothing of unknown width comes before this place, or a literal that is not all digits just before it. */
  ghost predicate ClearBefore(atoms: seq<Atom>, i: nat)
    requires i < |atoms|
  {
    || (forall j | 0 <= j < i :: atoms[j].Literal? || atoms[j].Hash?)
    || (i > 0 && atoms[i - 1].Literal? && HasOther(atoms[i - 1].s))
  }

  ghost predicate ClearAfter(atoms: seq<Atom>, i: nat)
    requires i < |atoms|
  {
    || (forall j | i < j < |atoms| :: atoms[j].Literal? || atoms[j].Hash?)
    || (i + 1 < |atoms| && atoms[i + 1].Literal? && HasOther(atoms[i + 1].s))
  }

  ghost predicate SetOff(atoms: seq<Atom>, i: nat)
    requires i < |atoms|
  {
    ClearBefore(atoms, i) && ClearAfter(atoms, i)
  }

  /** Every chunk number is set off on both sides by text that is not all digits, or stands at that end. */
  ghost predicate NumbersApart(atoms: seq<Atom>) {
    forall i | 0 <= i < |atoms| && atoms[i].Count? :: SetOff(atoms, i)
  }

  /** Between the number and a text of which no digest is given there is nothing that could not be digits. */
  ghost predicate LooseBy(atoms: seq<Atom>, i: nat, j: nat)
    requires i < |atoms| && j < |atoms|
  {
    && atoms[j].Free?
    && (forall k | 0 <= k < |atoms| :: atoms[k].Hash? ==> atoms[k].input != atoms[j].input)
    && (forall k | (i < k < j) || (j < k < i) :: atoms[k].Literal? ==> !HasOther(atoms[k].s))
  }

  /** The only chunk number of the template runs into a text. */
  ghost predicate Loose(atoms: seq<Atom>, i: nat)
    requires i < |atoms|
  {
    && (forall k | 0 <= k < |atoms| :: atoms[k].Count? ==> k == i)
    && exists j: nat | j < |atoms| :: LooseBy(atoms, i, j)
  }

  /** Of every chunk number the template shows at once whether it is set off or runs into a text. */
  ghost predicate NumbersPlain(atoms: seq<Atom>) {
    forall i | 0 <= i < |atoms| && atoms[i].Count? :: SetOff(atoms, i) || Loose(atoms, i)
  }

  lemma PartOfFront(atoms: seq<Atom>, lo: nat, hi: nat)
    requires lo <= hi < |atoms|
    ensures atoms[..|atoms| - 1][lo..hi] == atoms[lo..hi]
  {
  }

  lemma PartOfRest(atoms: seq<Atom>, lo: nat, hi: nat)
    requires lo <= hi < |atoms|
    ensures atoms[1..][lo..hi] == atoms[lo + 1..hi + 1]
  {
  }

  lemma {:induction false} CoreIsPart(atoms: seq<Atom>, known: set<Input>) returns (lo: nat, hi: nat)
    ensures lo <= hi <= |atoms| && Core(atoms, known).atoms == atoms[lo..hi]
    decreases |atoms|
  {
    lo, hi := 0, |atoms|;
    if atoms != [] {
      var last := |atoms| - 1;
      hide Settled, NumberLast, NumberFirst, Learned;
      if NumberLast(atoms) {
        lo, hi := CoreIsPart(atoms[..last], known);
        PartOfFront(atoms, lo, hi);
      } else if Settled(atoms[last], known) {
        lo, hi := CoreIsPart(atoms[..last], Learned(atoms[last], known));
        PartOfFront(atoms, lo, hi);
      } else if NumberFirst(atoms) {
        lo, hi := CoreIsPart(atoms[1..], known);
        PartOfRest(atoms, lo, hi);
        lo, hi := lo + 1, hi + 1;
      } else if Settled(atoms[0], known) {
        lo, hi := CoreIsPart(atoms[1..], Learned(atoms[0], known));
        PartOfRest(atoms, lo, hi);
        lo, hi := lo + 1, hi + 1;
      } else {
        assert atoms[0..|atoms|] == atoms;
      }
    }
  }

  lemma {:induction false} CoreEnds(atoms: seq<Atom>, known: set<Input>)
    ensures var c := Core(atoms, known);
            && known <= c.known
            && !NumberLast(c.atoms) && !NumberFirst(c.atoms)
            && (c.atoms != [] ==> !Settled(c.atoms[0], c.known) && !Settled(c.atoms[|c.atoms| - 1], c.known))
    decreases |atoms|
  {
    if atoms != [] {
      var last := |atoms| - 1;
      CoreEnds(atoms[..last], known);
      CoreEnds(atoms[..last], Learned(atoms[last], known));
      CoreEnds(atoms[1..], known);
      CoreEnds(atoms[1..], Learned(atoms[0], known));
      hide NumberLast, NumberFirst, Settled;
    }
  }

  /** If chunk numbers are set off, what is left begins and ends with texts, or is one chunk number alone. */
  lemma EndsAreTexts(atoms: seq<Atom>)
    requires NumbersApart(atoms) && !Separable(atoms)
    ensures var c := Core(atoms, {});
            |c.atoms| >= 2 && c.atoms[0].Free? && c.atoms[|c.atoms| - 1].Free?
  {
    var c := Core(atoms, {});
    CoreEnds(atoms, {});
    var lo, hi := CoreIsPart(atoms, {});
    hide Core, HasOther, NumbersApart;
    assert c.atoms != [];
    assert |c.atoms| >= 2;
    NoNumberAtEnds(atoms, lo, hi, c.known);
  }

  lemma NoNumberAtEnds(atoms: seq<Atom>, lo: nat, hi: nat, known: set<Input>)
    requires NumbersApart(atoms) && lo + 2 <= hi <= |atoms|
    requires !NumberLast(atoms[lo..hi]) && !NumberFirst(atoms[lo..hi])
    requires !Settled(atoms[lo], known) && !Settled(atoms[hi - 1], known)
    ensures atoms[lo].Free? && atoms[hi - 1].Free?
  {
    hide HasOther;
    var core := atoms[lo..hi];
    assert core[0] == atoms[lo] && core[1] == atoms[lo + 1];
    assert core[hi - lo - 1] == atoms[hi - 1] && core[hi - lo - 2] == atoms[hi - 2];
  }

  /** Outside the core nothing depends on what is not known. */
  lemma {:induction false} SpelledAlikeOutside(d: Digester, r: Request, q: Request, atoms: seq<Atom>, known: set<Input>)
    requires Agree(r, q, Core(atoms, known).known) && r.chunkIndex == q.chunkIndex
    requires Spell(d, r, Core(atoms, known).atoms) == Spell(d, q, Core(atoms, known).atoms)
    ensures Spell(d, r, atoms) == Spell(d, q, atoms)
    decreases |atoms|
  {
    if atoms != [] {
      var last := |atoms| - 1;
      var c := Core(atoms, known);
      hide Spell;
      if NumberLast(atoms) {
        SpelledAlikeOutside(d, r, q, atoms[..last], known);
        SpellLast(d, r, atoms);
        SpellLast(d, q, atoms);
      } else if Settled(atoms[last], known) {
        SpelledAlikeOutside(d, r, q, atoms[..last], Learned(atoms[last], known));
        CoreEnds(atoms[..last], Learned(atoms[last], known));
        SettledAlike(d, r, q, atoms[last], known, c.known);
        SpellLast(d, r, atoms);
        SpellLast(d, q, atoms);
      } else if NumberFirst(atoms) {
        SpelledAlikeOutside(d, r, q, atoms[1..], known);
        SpellFirst(d, r, atoms);
        SpellFirst(d, q, atoms);
      } else if Settled(atoms[0], known) {
        SpelledAlikeOutside(d, r, q, atoms[1..], Learned(atoms[0], known));
        CoreEnds(atoms[1..], Learned(atoms[0], known));
        SettledAlike(d, r, q, atoms[0], known, c.known);
        SpellFirst(d, r, atoms);
        SpellFirst(d, q, atoms);
      }
    }
  }

  lemma SettledAlike(d: Digester, r: Request, q: Request, a: Atom, known: set<Input>, all: set<Input>)
    requires Settled(a, known) && Learned(a, known) <= all && known <= all && Agree(r, q, all)
    ensures Show(d, r, a) == Show(d, q, a)
  {
  }

  /** A digest function that only tells the empty text from the others. */
  function Blur(s: string): (h: string)
    ensures |h| == 64
  {
    seq(64, i => if s == "" then '0' else '1')
  }

  const NOTHING := Request("", "", "", "", "", "", "", 0)

  lemma {:induction false} BlurredAlike(r: Request, q: Request, atoms: seq<Atom>)
    requires forall i :: TextOf(r, i) == "" <==> TextOf(q, i) == ""
    requires r.chunkIndex == q.chunkIndex
    requires forall i | 0 <= i < |atoms| ::
               atoms[i].Free? ==> TextOf(r, atoms[i].input) == TextOf(q, atoms[i].input)
    ensures Spell(Blur, r, atoms) == Spell(Blur, q, atoms)
  {
    if atoms != [] {
      var rest := atoms[1..];
      assert forall i | 0 <= i < |rest| :: rest[i] == atoms[i + 1];
      BlurredAlike(r, q, rest);
      BlurredOne(r, q, atoms[0]);
      hide Show;
    }
  }

  lemma BlurredOne(r: Request, q: Request, a: Atom)
    requires forall i :: TextOf(r, i) == "" <==> TextOf(q, i) == ""
    requires r.chunkIndex == q.chunkIndex && (a.Free? ==> TextOf(r, a.input) == TextOf(q, a.input))
    ensures Show(Blur, r, a) == Show(Blur, q, a)
  {
    if a.Hash? {
      assert Blur(TextOf(r, a.input)) == Blur(TextOf(q, a.input));
    }
  }

  /** Between two unknown texts the text in the middle can be moved from the one to the other. */
  lemma TwoUnknownCollide(middle: seq<Atom>, x: Input, y: Input) returns (r: Request, q: Request)
    requires x != y && forall i | 0 <= i < |middle| :: middle[i] != Free(x) && middle[i] != Free(y)
    ensures var core := [Free(x)] + middle + [Free(y)];
            && Spell(Blur, r, core) == Spell(Blur, q, core)
            && r.chunkIndex == q.chunkIndex && TextOf(r, x) == "" && TextOf(q, x) != ""
            && TextOf(r, y) != "" && TextOf(q, y) == ""
            && forall i | i != x && i != y :: TextOf(r, i) == TextOf(q, i)
  {
    var r0, q0 := Replaced(NOTHING, y, "x"), Replaced(NOTHING, x, "x");
    var mr, mq := Spell(Blur, r0, middle), Spell(Blur, q0, middle);
    r, q := Replaced(NOTHING, y, "x" + mq), Replaced(NOTHING, x, mr + "x");
    hide *;
    MovedText(mr, mq);
    FilledAlike(y, "x" + mq, "x", middle);
    FilledAlike(x, mr + "x", "x", middle);
    OnlyFilled(y, "x" + mq);
    OnlyFilled(x, mr + "x");
    ThreeParts(Blur, r, x, middle, y);
    ThreeParts(Blur, q, x, middle, y);
  }

  lemma OnlyFilled(x: Input, s: string)
    ensures var r := Replaced(NOTHING, x, s);
            TextOf(r, x) == s && r.chunkIndex == 0 && forall i | i != x :: TextOf(r, i) == ""
  {
  }

  /** Which text fills the one input makes no difference to a stretch that does not spell it out. */
  lemma FilledAlike(x: Input, s: string, t: string, middle: seq<Atom>)
    requires s != "" && t != "" && forall i | 0 <= i < |middle| :: middle[i] != Free(x)
    ensures Spell(Blur, Replaced(NOTHING, x, s), middle) == Spell(Blur, Replaced(NOTHING, x, t), middle)
  {
    hide TextOf, Replaced, Spell, Blur;
    OnlyFilled(x, s);
    OnlyFilled(x, t);
    BlurredAlike(Replaced(NOTHING, x, s), Replaced(NOTHING, x, t), middle);
  }

  lemma MovedText(a: string, b: string)
    ensures "" + a + ("x" + b) == (a + "x") + b + ""
    ensures "x" + b != "" && a + "x" != ""
  {
  }

  lemma ThreeParts(d: Digester, r: Request, x: Input, middle: seq<Atom>, y: Input)
    ensures Spell(d, r, [Free(x)] + middle + [Free(y)]) == TextOf(r, x) + Spell(d, r, middle) + TextOf(r, y)
  {
    assert Show(d, r, Free(x)) == TextOf(r, x) && Show(d, r, Free(y)) == TextOf(r, y);
    hide Spell, Show, TextOf;
    SpellBoth(d, r, [Free(x)], middle);
    SpellBoth(d, r, [Free(x)] + middle, [Free(y)]);
    SpellOne(d, r, Free(x));
    SpellOne(d, r, Free(y));
  }

  lemma PartSpelledOnce(atoms: seq<Atom>, lo: nat, hi: nat)
    requires SpelledOnce(atoms) && lo <= hi <= |atoms|
    ensures SpelledOnce(atoms[lo..hi])
  {
  }

  /** A core with two unknown texts begins with one and ends with another. */
  lemma CoreBetween(atoms: seq<Atom>) returns (x: Input, y: Input, middle: seq<Atom>)
    requires SpelledOnce(atoms) && NumbersApart(atoms) && !Separable(atoms)
    ensures var c := Core(atoms, {});
            && c.atoms == [Free(x)] + middle + [Free(y)] && x != y && x !in c.known && y !in c.known
            && forall i | 0 <= i < |middle| :: middle[i] != Free(x) && middle[i] != Free(y)
  {
    var c := Core(atoms, {});
    EndsAreTexts(atoms);
    CoreEnds(atoms, {});
    var lo, hi := CoreIsPart(atoms, {});
    hide Core, OneLeft, NumbersApart, Separable, NumberLast, NumberFirst;
    PartSpelledOnce(atoms, lo, hi);
    var n := |c.atoms|;
    x, y, middle := c.atoms[0].input, c.atoms[n - 1].input, c.atoms[1..n - 1];
    assert c.atoms == [c.atoms[0]] + middle + [c.atoms[n - 1]];
    assert forall i | 0 <= i < |middle| :: middle[i] == c.atoms[i + 1];
  }

  lemma InCore(atoms: seq<Atom>, x: Input)
    requires Free(x) in Core(atoms, {}).atoms
    ensures Free(x) in atoms
  {
    var lo, hi := CoreIsPart(atoms, {});
  }

  lemma BlurIsFixed()
    ensures FixedWidth(Blur)
  {
  }

  lemma BlurNoCollision(r: Request, q: Request, x: Input, y: Input)
    requires TextOf(r, x) == "" && TextOf(q, x) != "" && TextOf(r, y) != "" && TextOf(q, y) == ""
    requires forall i | i != x && i != y :: TextOf(r, i) == TextOf(q, i)
    ensures NoCollision(Blur, r, q)
  {
    forall i | i == x || i == y
      ensures Cut(Blur(TextOf(r, i)), 16)[0] != Cut(Blur(TextOf(q, i)), 16)[0]
    {
    }
  }

  lemma InseparableCollides(pieces: seq<Piece>)
    requires Known(pieces) && SpelledOnce(AtomsOf(pieces)) && NumbersApart(AtomsOf(pieces))
    requires !Separable(AtomsOf(pieces))
    ensures !Separates(pieces)
  {
    var atoms := AtomsOf(pieces);
    hide AtomsOf, Core, SpelledOnce, NumbersApart, OneLeft, TextOf, Spell, Blur, NoCollision, FixedWidth;
    var x, y, middle := CoreBetween(atoms);
    var r, q := TwoUnknownCollide(middle, x, y);
    SpelledAlikeOutside(Blur, r, q, atoms, {});
    RenderIsSpell(pieces, Blur, r);
    RenderIsSpell(pieces, Blur, q);
    BlurIsFixed();
    BlurNoCollision(r, q, x, y);
    assert ([Free(x)] + middle + [Free(y)])[0] == Free(x);
    InCore(atoms, x);
    var i :| 0 <= i < |atoms| && atoms[i] == Free(x);
    assert !SameOf(r, q, atoms[i]);
    assert SameIdentity(pieces, Blur, r, q);
  }

  // ---------------------------------------------------------------------- numbers that run into a text

  /** Nothing here depends on the chunk number or on this text. */
  ghost predicate Untouched(atoms: seq<Atom>, x: Input) {
    forall i | 0 <= i < |atoms| :: !atoms[i].Count? && atoms[i] != Free(x) && !(atoms[i].Hash? && atoms[i].input == x)
  }

  lemma {:induction false} UntouchedAlike(d: Digester, r: Request, q: Request, atoms: seq<Atom>, x: Input)
    requires Untouched(atoms, x) && forall i | i != x :: TextOf(r, i) == TextOf(q, i)
    ensures Spell(d, r, atoms) == Spell(d, q, atoms)
  {
    if atoms != [] {
      assert forall i | 0 <= i < |atoms| - 1 :: atoms[1..][i] == atoms[i + 1];
      UntouchedAlike(d, r, q, atoms[1..], x);
    }
  }

  /** With no texts and blurred digests, only a literal could bring in something else than digits. */
  lemma {:induction false} OnlyDigits(atoms: seq<Atom>)
    requires forall i | 0 <= i < |atoms| :: atoms[i].Literal? ==> !HasOther(atoms[i].s)
    ensures AllDigits(Spell(Blur, NOTHING, atoms))
  {
    if atoms != [] {
      assert forall i | 0 <= i < |atoms| - 1 :: atoms[1..][i] == atoms[i + 1];
      OnlyDigits(atoms[1..]);
      DigitsShown(atoms[0]);
      hide Show, Blur, HasOther;
    }
  }

  lemma DigitsShown(a: Atom)
    requires a.Literal? ==> !HasOther(a.s)
    ensures AllDigits(Show(Blur, NOTHING, a))
  {
    hide Padded;
  }

  lemma SpellAround(d: Digester, r: Request, front: seq<Atom>, u: Atom, middle: seq<Atom>, v: Atom, back: seq<Atom>)
    ensures Spell(d, r, front + ([u] + middle + [v]) + back)
            == Spell(d, r, front) + (Show(d, r, u) + Spell(d, r, middle) + Show(d, r, v)) + Spell(d, r, back)
  {
    hide *;
    SpellBoth(d, r, front + ([u] + middle + [v]), back);
    SpellBoth(d, r, front, [u] + middle + [v]);
    SpellBoth(d, r, [u] + middle, [v]);
    SpellBoth(d, r, [u], middle);
    SpellOne(d, r, u);
    SpellOne(d, r, v);
  }

  /** What a text ends in can be read as the beginning of the number, what is between them going along. */
  lemma TextIntoNumber(m: string) returns (n: nat)
    requires AllDigits(m)
    ensures m + "1" + m + Padded(0) == "" + m + Padded(n)
  {
    hide Padded, Value;
    var s := "1" + m + Padded(0);
    n := Value(s);
    PaddedOfValue(s);
    Associated(m, "1", m);
    Associated(m, "1" + m, Padded(0));
    assert "" + m == m;
  }

  lemma NumberIntoText(m: string) returns (n: nat)
    requires AllDigits(m)
    ensures Padded(n) + m + "" == Padded(100) + m + ("1" + m)
  {
    hide Padded, Value;
    Hundred();
    var s := Padded(100) + m + "1";
    n := Value(s);
    PaddedOfValue(s);
    Associated(Padded(100) + m, "1", m);
    assert s + m + "" == s + m;
  }

  lemma Hundred()
    ensures Padded(100)[0] == '1'
  {
    assert Decimal(10) == "10" && Decimal(100) == "100";
  }

  lemma BlurTellsOne(r: Request, q: Request, x: Input)
    requires TextOf(r, x) != "" && TextOf(q, x) == "" && forall i | i != x :: TextOf(r, i) == TextOf(q, i)
    ensures NoCollision(Blur, r, q)
  {
    assert Cut(Blur(TextOf(r, x)), 16)[0] != Cut(Blur(TextOf(q, x)), 16)[0];
  }

  /** Two requests that differ in the text and the number, and are spelled alike. */
  lemma LooseSpelledAlike(front: seq<Atom>, x: Input, middle: seq<Atom>, back: seq<Atom>, textFirst: bool)
    returns (r: Request, q: Request)
    requires Untouched(front, x) && Untouched(middle, x) && Untouched(back, x)
    requires forall i | 0 <= i < |middle| :: middle[i].Literal? ==> !HasOther(middle[i].s)
    ensures TextOf(r, x) != "" && TextOf(q, x) == "" && forall i | i != x :: TextOf(r, i) == TextOf(q, i)
    ensures var core := if textFirst then [Free(x)] + middle + [Count] else [Count] + middle + [Free(x)];
            Spell(Blur, r, front + core + back) == Spell(Blur, q, front + core + back)
  {
    var m := Spell(Blur, NOTHING, middle);
    OnlyDigits(middle);
    var n;
    if textFirst {
      n := TextIntoNumber(m);
      r, q := Filled(x, m + "1", 0), NOTHING.(chunkIndex := n);
    } else {
      n := NumberIntoText(m);
      r, q := Filled(x, "1" + m, 100), NOTHING.(chunkIndex := n);
    }
    NothingBut(n);
    UntouchedAlike(Blur, r, q, front, x);
    UntouchedAlike(Blur, r, q, middle, x);
    UntouchedAlike(Blur, r, q, back, x);
    UntouchedAlike(Blur, q, NOTHING, middle, x);
    ShownOf(Blur, r, x);
    ShownOf(Blur, q, x);
    hide *;
    if textFirst {
      SpellAround(Blur, r, front, Free(x), middle, Count, back);
      SpellAround(Blur, q, front, Free(x), middle, Count, back);
    } else {
      SpellAround(Blur, r, front, Count, middle, Free(x), back);
      SpellAround(Blur, q, front, Count, middle, Free(x), back);
    }
  }

  function Filled(x: Input, s: string, n: nat): (r: Request)
    ensures TextOf(r, x) == s && r.chunkIndex == n && forall i | i != x :: TextOf(r, i) == ""
  {
    Replaced(NOTHING.(chunkIndex := n), x, s)
  }

  lemma NothingBut(n: nat)
    ensures forall i :: TextOf(NOTHING.(chunkIndex := n), i) == ""
  {
  }

  lemma ShownOf(d: Digester, r: Request, x: Input)
    ensures Show(d, r, Free(x)) == TextOf(r, x) && Show(d, r, Count) == Padded(r.chunkIndex)
  {
  }

  /** The template around a number and the text it runs into. */
  lemma LooseParts(atoms: seq<Atom>, i: nat, j: nat) returns (front: seq<Atom>, middle: seq<Atom>, back: seq<Atom>)
    requires i < |atoms| && j < |atoms| && SpelledOnce(atoms) && atoms[i].Count? && LooseBy(atoms, i, j)
    requires forall k | 0 <= k < |atoms| :: atoms[k].Count? ==> k == i
    ensures var x := atoms[j].input;
            && Untouched(front, x) && Untouched(middle, x) && Untouched(back, x)
            && (forall k | 0 <= k < |middle| :: middle[k].Literal? ==> !HasOther(middle[k].s))
            && atoms == front + (if j < i then [Free(x)] + middle + [Count] else [Count] + middle + [Free(x)]) + back
  {
    hide HasOther;
    var lo, hi := if i < j then i else j, if i < j then j else i;
    front, middle, back := atoms[..lo], atoms[lo + 1..hi], atoms[hi + 1..];
    assert forall k | 0 <= k < |middle| :: middle[k] == atoms[lo + 1 + k];
    assert forall k | 0 <= k < |back| :: back[k] == atoms[hi + 1 + k];
    assert atoms == front + ([atoms[lo]] + middle + [atoms[hi]]) + back;
  }

  lemma Unlike(r: Request, q: Request, atoms: seq<Atom>, j: nat)
    requires j < |atoms| && atoms[j].Free? && TextOf(r, atoms[j].input) != TextOf(q, atoms[j].input)
    ensures !SameUsed(r, q, atoms)
  {
    assert !SameOf(r, q, atoms[j]);
  }

  lemma TwoSpelledAlike(pieces: seq<Piece>, r: Request, q: Request)
    requires Known(pieces) && NoCollision(Blur, r, q) && !SameUsed(r, q, AtomsOf(pieces))
    requires Spell(Blur, r, AtomsOf(pieces)) == Spell(Blur, q, AtomsOf(pieces))
    ensures !Separates(pieces)
  {
    hide AtomsOf, Spell, Blur, NoCollision, FixedWidth, SameUsed, Render, ValuesFor, Supplies, Known;
    RenderIsSpell(pieces, Blur, r);
    RenderIsSpell(pieces, Blur, q);
    BlurIsFixed();
    assert SameIdentity(pieces, Blur, r, q);
  }

  /** A number that runs into a text is not told from it. */
  lemma LooseCollides(pieces: seq<Piece>, i: nat)
    requires Known(pieces) && SpelledOnce(AtomsOf(pieces))
    requires i < |AtomsOf(pieces)| && AtomsOf(pieces)[i].Count? && Loose(AtomsOf(pieces), i)
    ensures !Separates(pieces)
  {
    var atoms := AtomsOf(pieces);
    hide AtomsOf, SpelledOnce, TextOf, Spell, Blur, NoCollision, FixedWidth, SameUsed, Untouched, HasOther, Known,
      Separates;
    var j: nat :| j < |atoms| && LooseBy(atoms, i, j);
    var x := atoms[j].input;
    var front, middle, back := LooseParts(atoms, i, j);
    var r, q := LooseSpelledAlike(front, x, middle, back, j < i);
    Unlike(r, q, atoms, j);
    BlurTellsOne(r, q, x);
    TwoSpelledAlike(pieces, r, q);
  }

  /**
   Exactly which templates keep requests apart, told from the template alone: those of which no more than
   one thing is left unknown when settled stretches and numbers are taken off at both ends. For templates that
   spell out no text twice, without which it is false (`RepeatedTextsSeparate`), and of whose chunk numbers it is
   plain whether they are set off or run into a text.
   */
  lemma SeparatesIff(pieces: seq<Piece>)
    requires Known(pieces) && SpelledOnce(AtomsOf(pieces)) && NumbersPlain(AtomsOf(pieces))
    ensures Separates(pieces) <==> Separable(AtomsOf(pieces))
  {
    hide AtomsOf, Separable, Separates, SpelledOnce, SetOff, Loose;
    var atoms := AtomsOf(pieces);
    if Separable(atoms) {
      SeparableSeparates(pieces);
    } else if NumbersApart(atoms) {
      InseparableCollides(pieces);
    } else {
      var i: nat :| i < |atoms| && atoms[i].Count? && !SetOff(atoms, i);
      LooseCollides(pieces, i);
    }
  }

  // ---------------------------------------------------------------------- templates of the repository, and others

  lemma AtomsOfFirst(a: Piece, rest: seq<Piece>)
    requires a.field.Some?
    ensures AtomsOf([a] + rest) == [Literal(a.literal), OriginOf(a.field.value)] + AtomsOf(rest)
  {
    hide OriginOf;
    assert ([a] + rest)[1..] == rest;
  }

  lemma AtomsOfThree(a: Piece, b: Piece, c: Piece)
    requires a.field.Some? && b.field.Some? && c.field.Some?
    ensures AtomsOf([a, b] + [c])
            == [Literal(a.literal), OriginOf(a.field.value), Literal(b.literal), OriginOf(b.field.value),
                Literal(c.literal), OriginOf(c.field.value)]
  {
    assert AtomsOf([]) == [];
    hide OriginOf, AtomsOf;
    assert [a, b] + [c] == [a] + ([b] + ([c] + []));
    AtomsOfFirst(c, []);
    AtomsOfFirst(b, [c] + []);
    AtomsOfFirst(a, [b] + ([c] + []));
  }

  lemma HyphenChunk()
    ensures HasOther("-chunk-") && HasOther("-")
  {
    assert "-chunk-"[0] == '-' && "-"[0] == '-';
  }

  /** The atoms of the default chunk pattern. */
  function DefaultAtoms(): seq<Atom> {
    [Literal(""), Hash(SourceRef, 64), Literal("-"), Free(PipelineId), Literal("-chunk-"), Count]
  }

  lemma DefaultAtomsAre()
    ensures AtomsOf(DefaultFront() + [DefaultLast()]) == DefaultAtoms() && Known(DefaultFront() + [DefaultLast()])
  {
    var x, y, z := DefaultFront()[0], DefaultFront()[1], DefaultLast();
    assert DefaultFront() == [x, y];
    assert OriginOf("source_hash") == Hash(SourceRef, 64) && OriginOf("pipeline") == Free(PipelineId);
    assert OriginOf("chunk") == Count;
    hide OriginOf, AtomsOf;
    AtomsOfThree(x, y, z);
  }

  lemma DefaultCore()
    ensures Separable(DefaultAtoms())
  {
    HyphenChunk();
    hide HasOther;
    var a6 := DefaultAtoms();
    var a5, a4 := a6[..5], a6[..4];
    assert NumberLast(a6) && a5[..4] == a4;
    assert Core(a6, {}) == Core(a5, {}) == Core(a4, {});
    var b3, b2, b1 := a4[1..], a4[2..], a4[3..];
    assert b3[1..] == b2 && b2[1..] == b1 && b1 == [Free(PipelineId)];
    var empty: set<Input> := {};
    assert empty + {SourceRef} == {SourceRef};
    assert Core(a4, {}) == Core(b3, {});
    assert Core(b3, {}) == Core(b2, {SourceRef});
    assert Core(b2, {SourceRef}) == Core(b1, {SourceRef}) == Rest(b1, {SourceRef});
  }

  /** The default chunk pattern keeps requests apart: the digest tells the source, the digits at the end the number. */
  lemma DefaultSeparates()
    ensures Parse(DEFAULT_PATTERN).Some? && Known(Parse(DEFAULT_PATTERN).value)
    ensures Separates(Parse(DEFAULT_PATTERN).value)
  {
    DefaultParses();
    DefaultAtomsAre();
    DefaultCore();
    hide *;
    SeparableSeparates(DefaultFront() + [DefaultLast()]);
  }

  /** A number that comes first, before a hyphen and a text or a digest, is told too. */
  lemma NumbersFirst()
    ensures Separable([Literal(""), Count, Literal("-"), Free(SourceRef)])
    ensures Separable([Literal(""), Count, Literal("-"), Hash(SourceRef, 64)])
  {
    HyphenChunk();
    assert !HasOther("");
    hide HasOther;
    var empty: set<Input> := {};
    var a := [Literal(""), Count, Literal("-"), Free(SourceRef)];
    assert a[1..][1..] == a[2..] && a[2..][1..] == a[3..] && a[3..] == [Free(SourceRef)];
    assert Core(a, {}) == Core(a[1..], {}) == Core(a[2..], {}) == Core(a[3..], {});
    var b := [Literal(""), Count, Literal("-"), Hash(SourceRef, 64)];
    assert b[..3][..2] == b[..2] && b[..2][1..] == [Count] && empty + {SourceRef} == {SourceRef};
    assert Core(b, {}) == Core(b[..3], {SourceRef}) == Core(b[..2], {SourceRef});
    assert Core(b[..2], {SourceRef}) == Core([Count], {SourceRef}) == Rest([Count], {SourceRef});
  }

  /** Two names of one text, or a digest that comes first, leave nothing unknown; two texts alone do. */
  lemma SomeTemplates()
    ensures Separable([Literal(""), Free(SourceRef), Literal("-"), Free(SourceRef)])
    ensures Separable([Literal(""), Hash(SourceRef, 64), Literal("-"), Free(SourceRef), Literal("-"), Free(PipelineId)])
    ensures !Separable([Literal(""), Free(SourceRef), Literal("-"), Free(PipelineId)])
  {
    var empty: set<Input> := {};
    var a := [Literal(""), Free(SourceRef), Literal("-"), Free(SourceRef)];
    assert Core(a, {}) == Core(a[1..], {}) == Rest(a[1..], {});
    var b := [Literal(""), Free(SourceRef), Literal("-"), Free(PipelineId)];
    assert Core(b, {}) == Core(b[1..], {}) == Rest(b[1..], {});
    assert b[1..][2] == Free(PipelineId) && b[1..][0] == Free(SourceRef);
    var c := [Literal(""), Hash(SourceRef, 64), Literal("-"), Free(SourceRef), Literal("-"), Free(PipelineId)];
    assert empty + {SourceRef} == {SourceRef};
    assert c[1..][1..] == c[2..] && c[2..][1..] == c[3..] && c[3..][1..] == c[4..] && c[4..][1..] == c[5..];
    assert Core(c, {}) == Core(c[1..], {});
    assert Core(c[1..], {}) == Core(c[2..], {SourceRef});
    assert Core(c[2..], {SourceRef}) == Core(c[3..], {SourceRef});
    assert Core(c[3..], {SourceRef}) == Core(c[4..], {SourceRef}) == Core(c[5..], {SourceRef});
    assert c[5..] == [Free(PipelineId)];
  }

  /** A text that the chunk number follows directly. */
  lemma TextThenNumber()
    ensures var atoms := [Literal(""), Free(SourceRef), Literal(""), Count];
            SpelledOnce(atoms) && NumbersPlain(atoms) && !Separable(atoms)
  {
    var atoms := [Literal(""), Free(SourceRef), Literal(""), Count];
    assert LooseBy(atoms, 3, 1);
    assert Loose(atoms, 3);
    assert !NumberLast(atoms) && !NumberFirst(atoms);
    assert Core(atoms, {}) == Core(atoms[1..], {});
    assert !NumberLast(atoms[1..]);
    assert Core(atoms[1..], {}) == Rest(atoms[1..], {});
    assert atoms[1..][2] == Count && atoms[1..][0] == Free(SourceRef);
  }

  /** A source and a pipeline joined by a hyphen. */
  const PAIR: string := "{source}-{pipeline}"

  function PairPieces(): seq<Piece> {
    [Piece("", Some("source"), false), Piece("-", Some("pipeline"), false)]
  }

  lemma PairParses()
    ensures Parse(PAIR) == Some(PairPieces())
  {
    var a, b := PairPieces()[0], PairPieces()[1];
    assert PrintPiece(a) == "{source}" && PrintPiece(b) == "-{pipeline}" && "{source}" + ("-{pipeline}" + "") == PAIR;
    assert PlainName("source") && PlainName("pipeline") && PlainText("") && PlainText("-");
    assert PairPieces() == [a] + ([b] + []);
    hide PrintPiece, PlainName, PlainText, Parse;
    PrintPrepended(b, []);
    PrintPrepended(a, [b] + []);
    ParseOfPrint(PairPieces());
  }

  function PairAtoms(): seq<Atom> {
    [Literal(""), Free(SourceRef), Literal("-"), Free(PipelineId)]
  }

  lemma PairAtomsAre()
    ensures AtomsOf(PairPieces()) == PairAtoms() && Known(PairPieces())
  {
    var a, b := PairPieces()[0], PairPieces()[1];
    assert OriginOf("source") == Free(SourceRef) && OriginOf("pipeline") == Free(PipelineId);
    assert PairPieces() == [a] + [b];
    hide OriginOf, AtomsOf;
    AtomsOfTwo(a, b);
  }

  lemma PairNotSeparable()
    ensures !Separable(PairAtoms()) && SpelledOnce(PairAtoms()) && NumbersApart(PairAtoms())
  {
    hide Separable;
    SomeTemplates();
  }

  /** An accepted template with which two requests, alike in all but source and pipeline, share an identity. */
  lemma PairCollides()
    ensures Parse(PAIR).Some? && Known(Parse(PAIR).value) && !Separates(Parse(PAIR).value)
  {
    hide *;
    PairParses();
    PairAtomsAre();
    PairNotSeparable();
    InseparableCollides(PairPieces());
  }

  lemma AtomsOfTwo(a: Piece, b: Piece)
    requires a.field.Some? && b.field.Some?
    ensures AtomsOf([a] + [b])
            == [Literal(a.literal), OriginOf(a.field.value), Literal(b.literal), OriginOf(b.field.value)]
  {
    assert AtomsOf([]) == [];
    hide OriginOf, AtomsOf;
    assert [a] + [b] == [a] + ([b] + []);
    AtomsOfFirst(b, []);
    AtomsOfFirst(a, [b] + []);
  }

  // ---------------------------------------------------------------------- where the condition is not exact

  function TwicePieces(): seq<Piece> {
    PairPieces() + [Piece("", Some("source"), false), Piece("+", Some("pipeline"), false)]
  }

  function TwiceAtoms(): seq<Atom> {
    [Literal(""), Free(SourceRef), Literal("-"), Free(PipelineId)]
    + [Literal(""), Free(SourceRef), Literal("+"), Free(PipelineId)]
  }

  lemma TwiceAtomsAre()
    ensures AtomsOf(TwicePieces()) == TwiceAtoms() && Known(TwicePieces())
  {
    var a, b := PairPieces()[0], PairPieces()[1];
    var c, e := Piece("", Some("source"), false), Piece("+", Some("pipeline"), false);
    assert OriginOf("source") == Free(SourceRef) && OriginOf("pipeline") == Free(PipelineId);
    hide OriginOf, AtomsOf;
    AtomsOfTwo(c, e);
    AtomsOfFirst(b, [c] + [e]);
    AtomsOfFirst(a, [b] + ([c] + [e]));
    assert TwicePieces() == [a] + ([b] + ([c] + [e]));
  }

  /** Spelled out twice with different separators, two texts are told apart, though neither end is settled. */
  lemma TwiceTells(x: string, y: string, u: string, v: string)
    requires x + "-" + y + (x + "+" + y) == u + "-" + v + (u + "+" + v)
    ensures x == u && y == v
  {
    var a, b, c, e := x + "-" + y, x + "+" + y, u + "-" + v, u + "+" + v;
    SamePrefix(a, b, c, e);
    assert a[|x|] == '-' && b[|x|] == '+' && c[|u|] == '-' && e[|u|] == '+';
    assert a[..|x|] == b[..|x|] && c[..|u|] == e[..|u|];
    assert |x| == |u|;
    assert x == a[..|x|] && u == c[..|u|] && y == a[|x| + 1..] && v == c[|u| + 1..];
  }

  lemma SpellPair(d: Digester, r: Request, sep: string)
    ensures Spell(d, r, [Literal(""), Free(SourceRef), Literal(sep), Free(PipelineId)])
            == r.sourceRef + sep + r.pipelineId
  {
    var front := [Literal("")] + [Free(SourceRef)];
    assert [Literal(""), Free(SourceRef), Literal(sep), Free(PipelineId)]
        == front + [Literal(sep)] + [Free(PipelineId)];
    SpellBoth(d, r, front + [Literal(sep)], [Free(PipelineId)]);
    SpellBoth(d, r, front, [Literal(sep)]);
    SpellBoth(d, r, [Literal("")], [Free(SourceRef)]);
    SpellOne(d, r, Literal(""));
    SpellOne(d, r, Free(SourceRef));
    SpellOne(d, r, Literal(sep));
    SpellOne(d, r, Free(PipelineId));
    hide Spell;
    assert "" + r.sourceRef == r.sourceRef;
  }

  /** Without `SpelledOnce` the condition is not necessary: this template is not separable, yet separates. */
  lemma RepeatedTextsSeparate()
    ensures Known(TwicePieces()) && Separates(TwicePieces()) && !Separable(AtomsOf(TwicePieces()))
    ensures !SpelledOnce(AtomsOf(TwicePieces())) && NumbersPlain(AtomsOf(TwicePieces()))
  {
    TwiceAtomsAre();
    TwiceNotSeparable();
    TwiceAtomsRepeat();
    hide AtomsOf, Separable, Spell, SpelledOnce, NumbersPlain, SameUsed, TwiceAtoms, TwicePieces, FixedWidth, Render;
    forall d: Digester, r, q | FixedWidth(d) && NoCollision(d, r, q) && SameIdentity(TwicePieces(), d, r, q)
      ensures SameUsed(r, q, AtomsOf(TwicePieces()))
    {
      RenderIsSpell(TwicePieces(), d, r);
      RenderIsSpell(TwicePieces(), d, q);
      SpellTwice(d, r);
      SpellTwice(d, q);
      TwiceTells(r.sourceRef, r.pipelineId, q.sourceRef, q.pipelineId);
      TwiceUses(r, q);
    }
  }

  lemma TwiceAtomsRepeat()
    ensures !SpelledOnce(TwiceAtoms()) && NumbersPlain(TwiceAtoms())
  {
    var atoms := TwiceAtoms();
    assert atoms[1] == atoms[5] == Free(SourceRef);
  }

  lemma TwiceUses(r: Request, q: Request)
    requires r.sourceRef == q.sourceRef && r.pipelineId == q.pipelineId
    ensures SameUsed(r, q, TwiceAtoms())
  {
  }

  lemma SpellTwice(d: Digester, r: Request)
    ensures Spell(d, r, TwiceAtoms())
            == r.sourceRef + "-" + r.pipelineId + (r.sourceRef + "+" + r.pipelineId)
  {
    hide Spell;
    SpellPair(d, r, "-");
    SpellPair(d, r, "+");
    SpellBoth(d, r, [Literal(""), Free(SourceRef), Literal("-"), Free(PipelineId)],
              [Literal(""), Free(SourceRef), Literal("+"), Free(PipelineId)]);
  }

  lemma TwiceNotSeparable()
    ensures !Separable(TwiceAtoms())
  {
    var a := TwiceAtoms();
    assert Core(a, {}) == Core(a[1..], {}) == Rest(a[1..], {});
    assert a[1..][2] == Free(PipelineId) && a[1..][0] == Free(SourceRef);
  }
}
