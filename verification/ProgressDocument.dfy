/**
 The progress document of one source (api/progress_tracker.py): its fields, the four updates, the
 recomputed totals and the field-by-field rebase.

 A missing object and an empty one are the same value here, because every reader of the document
 treats them alike (`setdefault`, `if "workers" not in doc`). Dictionaries whose order matters keep
 it: `locations` is the insertion-ordered list of a Python dict. Percentages are exact, in tenths.
 */
module ProgressDocument {
  import opened Outcomes

  type Tenths = int

  datatype SourceStatus = Pending | Starting | Backfilling | Live | Paused | Error | Completed

  datatype Reason =
    | Said(text: string)
    | BackfillComplete
    | BackfillAt(percent: Tenths)
    | LiveLag(lag: Tenths)

  datatype Entry = Entry(
    enumerated: int, created: int, completed: int, failed: int, pending: int,
    estimated: Option<int>, percent: Tenths, hasToken: bool, lastBlob: Option<string>,
    completion: Option<real>, error: Option<string>, updatedAt: real)

  type Locations = seq<(string, Entry)>

  datatype Totals = Totals(
    enumerated: int, created: int, completed: int, failed: int, pending: int,
    estimated: int, percent: Tenths)

  datatype LiveEntry = LiveEntry(
    received: int, processed: int, pending: int, lag: Tenths, throughput: real,
    error: Option<string>, updatedAt: real)

  datatype WorkerEntry = WorkerEntry(desired: int, ready: int, processing: int, updatedAt: real)

  datatype Document = Document(
    createdAt: real, updatedAt: Option<real>, status: SourceStatus, reason: Option<Reason>,
    locations: Locations, totals: Option<Totals>, live: Option<LiveEntry>,
    workers: map<string, WorkerEntry>)

  // ---------------------------------------------------------------------- rounding

  /** Python's `round(x, 1)` in tenths: to nearest, ties to even. */
  function Round1(x: real): Tenths {
    HalfEven(10.0 * x)
  }

  function HalfEven(y: real): int {
    var low := y.Floor;
    var rest := y - low as real;
    if rest < 0.5 || (rest == 0.5 && low % 2 == 0) then low else low + 1
  }

  function Percent(part: int, whole: int): Tenths {
    if whole > 0 then Round1(part as real / whole as real * 100.0) else 0
  }

  /** These tenths are nearest to `x`, and even if two are. */
  ghost predicate NearestTenth(tenths: Tenths, x: real) {
    var off := 2.0 * (tenths as real - 10.0 * x);
    -1.0 <= off <= 1.0 && (off == 1.0 || off == -1.0 ==> tenths % 2 == 0)
  }

  /** These tenths of a percent are nearest to the share that `part` is of `whole`, and even if two are. */
  ghost predicate NearestShare(tenths: Tenths, part: int, whole: int) {
    if whole <= 0 then tenths == 0
    else
      var off := 2 * (whole * tenths - 1000 * part);
      -whole <= off <= whole && (off == whole || off == -whole ==> tenths % 2 == 0)
  }

  lemma Round1IsNearest(x: real)
    ensures NearestTenth(Round1(x), x)
  {
  }

  lemma PercentIsNearest(part: int, whole: int)
    ensures NearestShare(Percent(part, whole), part, whole)
  {
    if whole > 0 {
      var share := part as real / whole as real * 100.0;
      assert Percent(part, whole) == Round1(share);
      hide Percent, Round1, NearestShare, Times;
      Round1IsNearest(share);
      var tenths := Round1(share);
      var off := 2.0 * (tenths as real - 10.0 * share);
      OffScaled(part as real, whole as real, tenths as real);
      ScaledDown(off, whole as real);
      var product := TimesOfInts(whole, tenths);
      ProductMeansNearest(tenths, part, whole, product, Times(off, whole as real));
    }
  }

  function Times(x: real, y: real): real {
    x * y
  }

  lemma TimesOfInts(x: int, y: int) returns (product: int)
    ensures product == x * y && Times(x as real, y as real) == product as real
  {
    product := x * y;
  }

  lemma ProductMeansNearest(tenths: Tenths, part: int, whole: int, product: int, y: real)
    requires whole > 0 && product == whole * tenths && y == 2.0 * (product as real - 1000.0 * part as real)
    requires -(whole as real) <= y <= whole as real
    requires y == whole as real || y == -(whole as real) ==> tenths % 2 == 0
    ensures NearestShare(tenths, part, whole)
  {
    var scaled := 2 * (product - 1000 * part);
    assert y == scaled as real;
  }

  lemma OffScaled(part: real, whole: real, p: real)
    requires whole > 0.0
    ensures Times(2.0 * (p - 10.0 * (part / whole * 100.0)), whole) == 2.0 * (Times(whole, p) - 1000.0 * part)
  {
    var share := part / whole;
    assert share * whole == part;
    assert 2.0 * (p - 10.0 * (share * 100.0)) * whole == 2.0 * (whole * p - 1000.0 * (share * whole));
  }

  lemma ScaledDown(off: real, whole: real)
    requires whole > 0.0 && -1.0 <= off <= 1.0
    ensures -whole <= Times(off, whole) <= whole
    ensures Times(off, whole) == whole ==> off == 1.0
    ensures Times(off, whole) == -whole ==> off == -1.0
  {
    assert (1.0 - off) * whole >= 0.0 && (1.0 + off) * whole >= 0.0;
    if off * whole == whole {
      Cancelled(off, 1.0, whole);
    }
    if off * whole == -whole {
      Cancelled(off, -1.0, whole);
    }
  }

  lemma Cancelled(x: real, y: real, whole: real)
    requires whole > 0.0 && x * whole == y * whole
    ensures x == y
  {
    assert (x - y) * whole == 0.0;
  }

  /** Rounding to one decimal lets 99.95 percent pass for all of it, and nothing less. */
  lemma FullWhenRounded(part: int, whole: int)
    requires whole > 0
    ensures Percent(part, whole) >= 1000 <==> 2000 * part >= 1999 * whole
  {
    var share := part as real / whole as real;
    assert HalfEven(10.0 * (share * 100.0)) >= 1000 <==> share >= 0.9995;
    QuotientAtLeast(part as real, whole as real);
    assert (2000 * part) as real == 2000.0 * part as real;
    assert (1999 * whole) as real == 1999.0 * whole as real;
  }

  lemma QuotientAtLeast(part: real, whole: real)
    requires whole > 0.0
    ensures part / whole >= 0.9995 <==> part >= 0.9995 * whole
  {
    var share := part / whole;
    assert share * whole == part;
    if share >= 0.9995 {
      assert (share - 0.9995) * whole >= 0.0;
    } else {
      assert (0.9995 - share) * whole > 0.0;
    }
  }

  // ---------------------------------------------------------------------- ordered dictionaries

  function Keys(d: Locations): set<string> {
    set i | 0 <= i < |d| :: d[i].0
  }

  ghost predicate Distinct(d: Locations) {
    forall i, j | 0 <= i < j < |d| :: d[i].0 != d[j].0
  }

  function Lookup(d: Locations, key: string): Option<Entry> {
    if d == [] then None
    else if d[0].0 == key then Some(d[0].1)
    else Lookup(d[1..], key)
  }

  /** `d[key] = value`: an existing key keeps its place, a new one goes last. */
  function Assign(d: Locations, key: string, value: Entry): Locations {
    if d == [] then [(key, value)]
    else if d[0].0 == key then [(key, value)] + d[1..]
    else [d[0]] + Assign(d[1..], key, value)
  }

  lemma {:induction false} LookupAssign(d: Locations, key: string, value: Entry, other: string)
    ensures Lookup(Assign(d, key, value), other) == if other == key then Some(value) else Lookup(d, other)
  {
    if d != [] && d[0].0 != key {
      LookupAssign(d[1..], key, value, other);
      assert Assign(d, key, value)[1..] == Assign(d[1..], key, value);
    } else if d != [] {
      assert Assign(d, key, value)[1..] == d[1..];
    }
  }

  lemma {:induction false} AssignKeys(d: Locations, key: string, value: Entry)
    ensures Keys(Assign(d, key, value)) == Keys(d) + {key}
    ensures |Assign(d, key, value)| == |d| + if key in Keys(d) then 0 else 1
  {
    var e := Assign(d, key, value);
    if d == [] {
      assert e[0].0 == key;
    } else if d[0].0 == key {
      assert forall i | 0 <= i < |d| :: e[i].0 == d[i].0;
      assert e[0].0 == key;
    } else {
      AssignKeys(d[1..], key, value);
      KeysOfCons(d[0], d[1..]);
      KeysOfCons(d[0], Assign(d[1..], key, value));
      assert d == [d[0]] + d[1..];
    }
  }

  lemma {:induction false} AssignDistinct(d: Locations, key: string, value: Entry)
    requires Distinct(d)
    ensures Distinct(Assign(d, key, value))
  {
    if d != [] && d[0].0 != key {
      var rest := d[1..];
      forall i, j | 0 <= i < j < |rest| ensures rest[i].0 != rest[j].0 {
        assert rest[i] == d[i + 1] && rest[j] == d[j + 1];
      }
      AssignDistinct(rest, key, value);
      AssignKeys(rest, key, value);
      forall k | k in Keys(rest) ensures k != d[0].0 {
        var i :| 0 <= i < |rest| && rest[i].0 == k;
        assert d[i + 1].0 == k;
      }
      DistinctCons(d[0], Assign(rest, key, value));
    }
  }

  lemma DistinctCons(x: (string, Entry), d: Locations)
    requires Distinct(d) && x.0 !in Keys(d)
    ensures Distinct([x] + d)
  {
    var e := [x] + d;
    forall i, j | 0 <= i < j < |e| ensures e[i].0 != e[j].0 {
      assert e[j] == d[j - 1] && d[j - 1].0 in Keys(d);
      assert i > 0 ==> e[i] == d[i - 1];
    }
  }

  lemma KeysOfCons(x: (string, Entry), d: Locations)
    ensures Keys([x] + d) == {x.0} + Keys(d)
  {
    var e := [x] + d;
    assert e[0] == x;
    forall k | k in Keys(d) ensures k in Keys(e) {
      var i :| 0 <= i < |d| && d[i].0 == k;
      assert e[i + 1] == d[i];
    }
  }

  // ---------------------------------------------------------------------- totals

  datatype Counter = Enumerated | CreatedJobs | CompletedJobs | FailedJobs | PendingJobs | Estimated

  function Counted(e: Entry, c: Counter): int {
    match c
    case Enumerated => e.enumerated
    case CreatedJobs => e.created
    case CompletedJobs => e.completed
    case FailedJobs => e.failed
    case PendingJobs => e.pending
    case Estimated => if e.estimated.Some? then e.estimated.value else 0
  }

  function Sum(d: Locations, c: Counter): int {
    if d == [] then 0 else Sum(d[..|d| - 1], c) + Counted(d[|d| - 1].1, c)
  }

  lemma {:induction false} SumCons(x: (string, Entry), d: Locations, c: Counter)
    ensures Sum([x] + d, c) == Counted(x.1, c) + Sum(d, c)
  {
    var e := [x] + d;
    if d == [] {
      assert e[..0] == [];
    } else {
      assert e[..|e| - 1] == [x] + d[..|d| - 1];
      SumCons(x, d[..|d| - 1], c);
    }
  }

  /** Reporting one location moves each total by exactly that location's change. */
  lemma {:induction false} SumAssign(d: Locations, key: string, value: Entry, c: Counter)
    ensures Sum(Assign(d, key, value), c)
         == Sum(d, c) + Counted(value, c)
            - (match Lookup(d, key) case Some(was) => Counted(was, c) case None => 0)
  {
    if d == [] {
      assert [(key, value)][..0] == [];
    } else {
      assert d == [d[0]] + d[1..];
      SumCons(d[0], d[1..], c);
      if d[0].0 == key {
        SumCons((key, value), d[1..], c);
      } else {
        SumAssign(d[1..], key, value, c);
        SumCons(d[0], Assign(d[1..], key, value), c);
      }
    }
  }

  predicate Truthy(text: Option<string>) {
    text.Some? && text.value != ""
  }

  function FirstError(d: Locations): Option<string> {
    if d == [] then None
    else if Truthy(d[0].1.error) then d[0].1.error
    else FirstError(d[1..])
  }

  function TotalsOf(d: Locations): Totals {
    Totals(Sum(d, Enumerated), Sum(d, CreatedJobs), Sum(d, CompletedJobs), Sum(d, FailedJobs),
           Sum(d, PendingJobs), Sum(d, Estimated), Percent(Sum(d, Enumerated), Sum(d, Estimated)))
  }

  /** `_refresh_backfill_totals`: aggregates first, then the status they imply. */
  function Refreshed(doc: Document): Document {
    var t := TotalsOf(doc.locations);
    var counted := doc.(totals := Some(t));
    var error := FirstError(doc.locations);
    if error.Some? then counted.(status := Error, reason := Some(Said(error.value)))
    else if t.percent >= 1000 && t.pending == 0 then counted.(status := Live, reason := Some(BackfillComplete))
    else counted.(status := Backfilling, reason := Some(BackfillAt(t.percent)))
  }

  lemma NoTotals()
    ensures TotalsOf([]) == Totals(0, 0, 0, 0, 0, 0, 0)
  {
  }

  /** Each total moves by what the new report of a location says more than its last one. */
  lemma TotalsMove(d: Locations, key: string, e: Entry)
    ensures var was := Lookup(d, key);
            var w := if was.Some? then was.value else Entry(0, 0, 0, 0, 0, None, 0, false, None, None, None, 0.0);
            var t, n := TotalsOf(d), TotalsOf(Assign(d, key, e));
            && n.enumerated == t.enumerated + e.enumerated - w.enumerated
            && n.created == t.created + e.created - w.created
            && n.completed == t.completed + e.completed - w.completed
            && n.failed == t.failed + e.failed - w.failed
            && n.pending == t.pending + e.pending - w.pending
            && n.estimated == t.estimated + (if e.estimated.Some? then e.estimated.value else 0)
                              - (if w.estimated.Some? then w.estimated.value else 0)
            && NearestShare(n.percent, n.enumerated, n.estimated)
  {
    SumAssign(d, key, e, Enumerated);
    SumAssign(d, key, e, CreatedJobs);
    SumAssign(d, key, e, CompletedJobs);
    SumAssign(d, key, e, FailedJobs);
    SumAssign(d, key, e, PendingJobs);
    SumAssign(d, key, e, Estimated);
    PercentIsNearest(Sum(Assign(d, key, e), Enumerated), Sum(Assign(d, key, e), Estimated));
    hide Percent, NearestShare, Sum, Assign, Lookup;
  }

  /** This location reports an error. */
  ghost predicate FaultAt(d: Locations, i: nat)
    requires i < |d|
  {
    d[i].1.error.Some? && d[i].1.error.value != ""
  }

  /**
   Totals and status go together: the first error makes the status, else all is done when nothing is pending and
   99.95 percent are enumerated, else the reason names the percentage.
   */
  ghost predicate SummedUp(doc: Document) {
    var d := doc.locations;
    && doc.totals.Some?
    && var t := doc.totals.value;
       && NearestShare(t.percent, t.enumerated, t.estimated)
       && (if exists i: nat | i < |d| :: FaultAt(d, i) then
             doc.status == Error && exists i: nat | i < |d| :: FirstFault(doc, i)
           else if t.pending == 0 && t.estimated > 0 && 2000 * t.enumerated >= 1999 * t.estimated then
             doc.status == Live && doc.reason == Some(BackfillComplete)
           else doc.status == Backfilling && doc.reason == Some(BackfillAt(t.percent)))
  }

  /** The reason is the error of this location, and none before it has one. */
  ghost predicate FirstFault(doc: Document, i: nat)
    requires i < |doc.locations|
  {
    && FaultAt(doc.locations, i) && doc.reason == Some(Said(doc.locations[i].1.error.value))
    && forall j: nat | j < i :: !FaultAt(doc.locations, j)
  }

  lemma {:induction false} FirstErrorIs(d: Locations) returns (i: nat)
    ensures i <= |d| && (forall j: nat | j < i :: !FaultAt(d, j))
    ensures if i == |d| then FirstError(d) == None else FaultAt(d, i) && FirstError(d) == d[i].1.error
  {
    i := 0;
    if d != [] && !FaultAt(d, 0) {
      i := FirstErrorIs(d[1..]);
      i := i + 1;
      forall j: nat | j < i ensures !FaultAt(d, j) {
        assert j > 0 ==> d[j] == d[1..][j - 1] && !FaultAt(d[1..], j - 1);
      }
    }
  }

  lemma RefreshedSumsUp(doc: Document)
    ensures SummedUp(Refreshed(doc)) && Refreshed(doc).totals == Some(TotalsOf(doc.locations))
  {
    var d, t := doc.locations, TotalsOf(doc.locations);
    PercentIsNearest(t.enumerated, t.estimated);
    if t.estimated > 0 {
      FullWhenRounded(t.enumerated, t.estimated);
    }
    var i := FirstErrorIs(d);
    hide Percent, NearestShare, Sum, FirstError;
    if i < |d| {
      assert FirstFault(Refreshed(doc), i);
    }
  }

  ghost predicate AnyError(d: Locations) {
    exists i | 0 <= i < |d| :: Truthy(d[i].1.error)
  }

  lemma {:induction false} FirstErrorExists(d: Locations)
    ensures FirstError(d).Some? <==> AnyError(d)
  {
    if d != [] {
      FirstErrorExists(d[1..]);
      if AnyError(d[1..]) {
        var i :| 0 <= i < |d[1..]| && Truthy(d[1..][i].1.error);
        assert d[1..][i] == d[i + 1];
      }
      if AnyError(d) && !Truthy(d[0].1.error) {
        var i :| 0 <= i < |d| && Truthy(d[i].1.error);
        assert d[1..][i - 1] == d[i];
      }
    }
  }

  /** When the backfill is declared complete: exactly then, and not only at one hundred percent. */
  lemma LiveExactly(doc: Document)
    ensures var d := doc.locations;
            Refreshed(doc).status == Live <==>
              !AnyError(d) && Sum(d, PendingJobs) == 0 && Sum(d, Estimated) > 0
              && 2000 * Sum(d, Enumerated) >= 1999 * Sum(d, Estimated)
  {
    var d := doc.locations;
    FirstErrorExists(d);
    if Sum(d, Estimated) > 0 {
      FullWhenRounded(Sum(d, Enumerated), Sum(d, Estimated));
    }
  }

  /** The aggregates agree with the locations they summarise. */
  ghost predicate Agrees(doc: Document) {
    && Distinct(doc.locations)
    && (doc.locations != [] ==> doc.totals == Some(TotalsOf(doc.locations)))
  }

  // ---------------------------------------------------------------------- the four updates

  /** What one call writes, fixed when the call starts. */
  datatype Op =
    | Backfill(location: string, entry: Entry, at: real)
    | LiveUpdate(live: LiveEntry, at: real)
    | Workers(kind: string, worker: WorkerEntry, at: real)
    | SetStatus(status: SourceStatus, text: string, at: real)
  {
    /** Only `update_workers` does nothing when there is no document. */
    predicate Creates() {
      !Workers?
    }
  }

  function Blank(status: SourceStatus, now: real): Document {
    Document(now, None, status, None, [], None, None, map[])
  }

  function Starting(op: Op): Document {
    match op
    case Backfill(_, _, at) => Blank(SourceStatus.Backfilling, at)
    case LiveUpdate(_, at) => Blank(SourceStatus.Live, at)
    case Workers(_, _, at) => Blank(SourceStatus.Pending, at)
    case SetStatus(status, _, at) => Blank(status, at)
  }

  /** The update itself, on the document the call read. */
  function Apply(op: Op, doc: Document): Document {
    match op
    case Backfill(location, entry, at) =>
      Refreshed(doc.(locations := Assign(doc.locations, location, entry))).(updatedAt := Some(at))
    case LiveUpdate(live, at) =>
      var failed := Truthy(live.error);
      doc.(live := Some(live), updatedAt := Some(at),
           status := if failed then Error else Live,
           reason := Some(if failed then Said(live.error.value) else LiveLag(live.lag)))
    case Workers(kind, worker, at) =>
      doc.(workers := doc.workers[kind := worker], updatedAt := Some(at))
    case SetStatus(status, text, at) =>
      doc.(status := status, reason := Some(Said(text)), updatedAt := Some(at))
  }

  /** What a document says about the update that was just made to it. */
  ghost predicate Says(op: Op, doc: Document) {
    && doc.updatedAt == Some(op.at)
    && match op
       case Backfill(location, entry, _) => SummedUp(doc) && Lookup(doc.locations, location) == Some(entry)
       case LiveUpdate(live, _) =>
         && doc.live == Some(live)
         && if live.error.Some? && live.error.value != "" then
              doc.status == Error && doc.reason == Some(Said(live.error.value))
            else doc.status == Live && doc.reason == Some(LiveLag(live.lag))
       case Workers(kind, worker, _) => kind in doc.workers && doc.workers[kind] == worker
       case SetStatus(status, text, _) => doc.status == status && doc.reason == Some(Said(text))
  }

  lemma ApplySays(op: Op, doc: Document)
    ensures Says(op, Apply(op, doc))
  {
    if op.Backfill? {
      var reported := doc.(locations := Assign(doc.locations, op.location, op.entry));
      RefreshedSumsUp(reported);
      LookupAssign(doc.locations, op.location, op.entry, op.location);
      SummedAtAnyTime(Refreshed(reported), Some(op.at));
      hide SummedUp, Assign, Lookup;
    }
  }

  lemma SummedAtAnyTime(doc: Document, at: Option<real>)
    requires SummedUp(doc)
    ensures SummedUp(doc.(updatedAt := at))
  {
    if i: nat :| i < |doc.locations| && FirstFault(doc, i) {
      assert FirstFault(doc.(updatedAt := at), i);
    }
  }

  function Applied(op: Op, base: Option<Document>): Document {
    Apply(op, if base.Some? then base.value else Starting(op))
  }

  lemma AppliedSays(op: Op, base: Option<Document>)
    ensures Says(op, Applied(op, base))
  {
    ApplySays(op, if base.Some? then base.value else Starting(op));
  }

  lemma AppliedAgrees(op: Op, base: Option<Document>)
    requires base.Some? ==> Agrees(base.value)
    ensures Agrees(Applied(op, base))
  {
    if op.Backfill? {
      var doc := if base.Some? then base.value else Starting(op);
      AssignDistinct(doc.locations, op.location, op.entry);
    }
  }

  // ---------------------------------------------------------------------- rebase

  /** The paths an update names: the fields it copies onto somebody else's newer document. */
  datatype Path = AtLocation(location: string) | AtLive | AtWorker(kind: string) | AtStatus | AtReason | AtUpdated

  function PathsOf(op: Op): seq<Path> {
    match op
    case Backfill(location, _, _) => [AtLocation(location), AtUpdated]
    case LiveUpdate(_, _) => [AtLive, AtStatus, AtReason, AtUpdated]
    case Workers(kind, _, _) => [AtWorker(kind), AtUpdated]
    case SetStatus(_, _, _) => [AtStatus, AtReason, AtUpdated]
  }

  predicate Has(doc: Document, path: Path) {
    match path
    case AtLocation(location) => Lookup(doc.locations, location).Some?
    case AtWorker(kind) => kind in doc.workers
    case _ => true
  }

  function CopyPath(latest: Document, proposed: Document, path: Path): Document
    requires Has(proposed, path)
  {
    match path
    case AtLocation(location) =>
      latest.(locations := Assign(latest.locations, location, Lookup(proposed.locations, location).value))
    case AtLive => latest.(live := proposed.live)
    case AtWorker(kind) => latest.(workers := latest.workers[kind := proposed.workers[kind]])
    case AtStatus => latest.(status := proposed.status)
    case AtReason => latest.(reason := proposed.reason)
    case AtUpdated => latest.(updatedAt := proposed.updatedAt)
  }

  function CopyPaths(latest: Document, proposed: Document, paths: seq<Path>): Document
    requires forall p <- paths :: Has(proposed, p)
  {
    if paths == [] then latest
    else CopyPath(CopyPaths(latest, proposed, paths[..|paths| - 1]), proposed, paths[|paths| - 1])
  }

  lemma CopyPathsAppended(latest: Document, proposed: Document, paths: seq<Path>, path: Path)
    requires Has(proposed, path) && forall p <- paths :: Has(proposed, p)
    ensures CopyPaths(latest, proposed, paths + [path])
         == CopyPath(CopyPaths(latest, proposed, paths), proposed, path)
  {
    assert (paths + [path])[..|paths|] == paths;
  }

  lemma CopyTwo(latest: Document, proposed: Document, a: Path, b: Path)
    requires Has(proposed, a) && Has(proposed, b)
    ensures CopyPaths(latest, proposed, [a, b]) == CopyPath(CopyPath(latest, proposed, a), proposed, b)
  {
    CopyPathsAppended(latest, proposed, [], a);
    CopyPathsAppended(latest, proposed, [a], b);
    assert [] + [a] == [a] && [a] + [b] == [a, b];
  }

  lemma CopyThree(latest: Document, proposed: Document, a: Path, b: Path, c: Path)
    requires Has(proposed, a) && Has(proposed, b) && Has(proposed, c)
    ensures CopyPaths(latest, proposed, [a, b, c])
         == CopyPath(CopyPath(CopyPath(latest, proposed, a), proposed, b), proposed, c)
  {
    CopyTwo(latest, proposed, a, b);
    CopyPathsAppended(latest, proposed, [a, b], c);
    assert [a, b] + [c] == [a, b, c];
  }

  lemma CopyFour(latest: Document, proposed: Document, a: Path, b: Path, c: Path, d: Path)
    requires Has(proposed, a) && Has(proposed, b) && Has(proposed, c) && Has(proposed, d)
    ensures CopyPaths(latest, proposed, [a, b, c, d])
         == CopyPath(CopyPath(CopyPath(CopyPath(latest, proposed, a), proposed, b), proposed, c), proposed, d)
  {
    CopyThree(latest, proposed, a, b, c);
    CopyPathsAppended(latest, proposed, [a, b, c], d);
    assert [a, b, c] + [d] == [a, b, c, d];
  }

  predicate NamesLocation(paths: seq<Path>) {
    exists i | 0 <= i < |paths| :: paths[i].AtLocation?
  }

  function Rebased(latest: Document, proposed: Document, paths: seq<Path>): Document
    requires forall p <- paths :: Has(proposed, p)
  {
    var merged := CopyPaths(latest, proposed, paths);
    if NamesLocation(paths) then Refreshed(merged) else merged
  }

  lemma ProposalHasItsPaths(op: Op, base: Option<Document>)
    ensures forall p <- PathsOf(op) :: Has(Applied(op, base), p)
  {
    if op.Backfill? {
      var doc := if base.Some? then base.value else Starting(op);
      LookupAssign(doc.locations, op.location, op.entry, op.location);
    }
  }

  lemma RefreshIgnoresClock(doc: Document, at: Option<real>)
    ensures Refreshed(doc.(updatedAt := at)) == Refreshed(doc).(updatedAt := at)
  {
  }

  lemma RebaseBackfill(op: Op, proposed: Document, latest: Document)
    requires op.Backfill? && proposed.updatedAt == Some(op.at)
    requires Lookup(proposed.locations, op.location) == Some(op.entry)
    ensures Rebased(latest, proposed, PathsOf(op)) == Apply(op, latest)
  {
    CopyTwo(latest, proposed, AtLocation(op.location), AtUpdated);
    assert PathsOf(op)[0].AtLocation?;
    RefreshIgnoresClock(latest.(locations := Assign(latest.locations, op.location, op.entry)), Some(op.at));
  }

  lemma RebaseOther(op: Op, proposed: Document, latest: Document)
    requires !op.Backfill? && forall p <- PathsOf(op) :: Has(proposed, p)
    requires proposed.updatedAt == Some(op.at)
    requires op.Workers? ==> op.kind in proposed.workers && proposed.workers[op.kind] == op.worker
    requires op.SetStatus? ==> proposed.status == op.status && proposed.reason == Some(Said(op.text))
    requires op.LiveUpdate? ==>
               proposed.live == Some(op.live)
               && proposed.status == (if Truthy(op.live.error) then Error else Live)
               && proposed.reason
                  == Some(if Truthy(op.live.error) then Said(op.live.error.value) else LiveLag(op.live.lag))
    ensures Rebased(latest, proposed, PathsOf(op)) == Apply(op, latest)
  {
    match op {
      case LiveUpdate(_, _) =>
        CopyFour(latest, proposed, AtLive, AtStatus, AtReason, AtUpdated);
      case Workers(kind, _, _) =>
        CopyTwo(latest, proposed, AtWorker(kind), AtUpdated);
      case SetStatus(_, _, _) =>
        CopyThree(latest, proposed, AtStatus, AtReason, AtUpdated);
    }
  }

  /**
   Copying the named fields of a proposal onto a newer document is the same as performing the
   update on that document, whatever the proposal had been computed from.
   */
  lemma RebaseReapplies(op: Op, base: Option<Document>, latest: Document)
    requires forall p <- PathsOf(op) :: Has(Applied(op, base), p)
    ensures Rebased(latest, Applied(op, base), PathsOf(op)) == Apply(op, latest)
  {
    var doc := if base.Some? then base.value else Starting(op);
    if op.Backfill? {
      LookupAssign(doc.locations, op.location, op.entry, op.location);
      RebaseBackfill(op, Applied(op, base), latest);
    } else {
      RebaseOther(op, Applied(op, base), latest);
    }
  }

  // ---------------------------------------------------------------------- replaying updates

  /** The document after the updates in order, starting from none. */
  function Replay(ops: seq<Op>): Option<Document> {
    if ops == [] then None
    else Some(Applied(ops[|ops| - 1], Replay(ops[..|ops| - 1])))
  }

  /** The last update in `ops` that reports on `location`, if any. */
  function LastReport(ops: seq<Op>, location: string): Option<Entry> {
    if ops == [] then None
    else
      var last := ops[|ops| - 1];
      if last.Backfill? && last.location == location then Some(last.entry)
      else LastReport(ops[..|ops| - 1], location)
  }

  function LastWorker(ops: seq<Op>, kind: string): Option<WorkerEntry> {
    if ops == [] then None
    else
      var last := ops[|ops| - 1];
      if last.Workers? && last.kind == kind then Some(last.worker)
      else LastWorker(ops[..|ops| - 1], kind)
  }

  function LastLive(ops: seq<Op>): Option<LiveEntry> {
    if ops == [] then None
    else if ops[|ops| - 1].LiveUpdate? then Some(ops[|ops| - 1].live)
    else LastLive(ops[..|ops| - 1])
  }

  lemma {:induction false} ReplayAgrees(ops: seq<Op>)
    requires ops != []
    ensures Agrees(Replay(ops).value)
  {
    var before := ops[..|ops| - 1];
    if before != [] {
      ReplayAgrees(before);
    }
    AppliedAgrees(ops[|ops| - 1], Replay(before));
  }

  /** The status of a document together with its reason. */
  datatype Standing = Standing(status: SourceStatus, reason: Option<Reason>)

  function StandingOf(doc: Document): Standing {
    Standing(doc.status, doc.reason)
  }

  /** What an update says about the status; a report on a location says what all locations add up to. */
  function Stated(op: Op, d: Locations): Standing
    requires !op.Workers?
  {
    match op
    case SetStatus(status, text, _) => Standing(status, Some(Said(text)))
    case LiveUpdate(live, _) =>
      if Truthy(live.error) then Standing(Error, Some(Said(live.error.value)))
      else Standing(Live, Some(LiveLag(live.lag)))
    case Backfill(_, _, _) =>
      if FirstError(d).Some? then Standing(Error, Some(Said(FirstError(d).value)))
      else if Percent(Sum(d, Enumerated), Sum(d, Estimated)) >= 1000 && Sum(d, PendingJobs) == 0 then
        Standing(Live, Some(BackfillComplete))
      else Standing(Backfilling, Some(BackfillAt(Percent(Sum(d, Enumerated), Sum(d, Estimated)))))
  }

  /** The last update that says anything about the status: any but a worker report. */
  function LastStatement(ops: seq<Op>): (r: Option<Op>)
    ensures r.Some? ==> !r.value.Workers?
  {
    if ops == [] then None
    else if !ops[|ops| - 1].Workers? then Some(ops[|ops| - 1])
    else LastStatement(ops[..|ops| - 1])
  }

  ghost predicate AnyReport(ops: seq<Op>) {
    exists i | 0 <= i < |ops| :: ops[i].Backfill?
  }

  /** What one update changes, and what it leaves alone. */
  lemma ApplyTouches(op: Op, doc: Document, location: string)
    ensures var after := Apply(op, doc);
            && Lookup(after.locations, location)
                 == (if op.Backfill? && op.location == location then Some(op.entry)
                     else Lookup(doc.locations, location))
            && after.workers == (if op.Workers? then doc.workers[op.kind := op.worker] else doc.workers)
            && after.live == (if op.LiveUpdate? then Some(op.live) else doc.live)
            && StandingOf(after) == (if op.Workers? then StandingOf(doc) else Stated(op, after.locations))
            && (if op.Backfill? then after.totals == Some(TotalsOf(after.locations))
                else after.locations == doc.locations && after.totals == doc.totals)
            && after.createdAt == doc.createdAt && after.updatedAt == Some(op.at)
  {
    if op.Backfill? {
      LookupAssign(doc.locations, op.location, op.entry, location);
    }
  }

  /** A location, a worker kind and the live report are what the last update to them said; totals add up. */
  ghost predicate KeepsParts(ops: seq<Op>, doc: Document, location: string, kind: string) {
    && Lookup(doc.locations, location) == LastReport(ops, location)
    && (if kind in doc.workers then Some(doc.workers[kind]) else None) == LastWorker(ops, kind)
    && doc.live == LastLive(ops)
    && doc.totals == if AnyReport(ops) then Some(TotalsOf(doc.locations)) else None
  }

  /** Status and reason are what the last update but worker reports said. */
  ghost predicate KeepsStanding(ops: seq<Op>, doc: Document) {
    var last := LastStatement(ops);
    StandingOf(doc) == if last.Some? then Stated(last.value, doc.locations) else Standing(Pending, None)
  }

  /** Every part of this document is what the last update to that part said. */
  ghost predicate KeepsLastWord(ops: seq<Op>, doc: Document, location: string, kind: string)
    requires ops != []
  {
    && KeepsParts(ops, doc, location, kind) && KeepsStanding(ops, doc)
    && doc.createdAt == ops[0].at && doc.updatedAt == Some(ops[|ops| - 1].at)
  }

  /** A document before its first update. */
  lemma BlankFacts(op: Op, location: string, kind: string)
    ensures KeepsParts([], Starting(op), location, kind) && Starting(op).createdAt == op.at
    ensures op.Workers? ==> KeepsStanding([], Starting(op))
  {
  }

  lemma AnyReportAppended(ops: seq<Op>, op: Op)
    ensures AnyReport(ops + [op]) <==> AnyReport(ops) || op.Backfill?
  {
    if AnyReport(ops) {
      var i :| 0 <= i < |ops| && ops[i].Backfill?;
      assert (ops + [op])[i].Backfill?;
    }
    assert (ops + [op])[|ops|] == op;
  }

  lemma NextKeepsParts(ops: seq<Op>, op: Op, doc: Document, location: string, kind: string)
    requires KeepsParts(ops, doc, location, kind)
    ensures KeepsParts(ops + [op], Apply(op, doc), location, kind)
  {
    ApplyTouches(op, doc, location);
    AnyReportAppended(ops, op);
    assert (ops + [op])[..|ops|] == ops;
    hide Apply, Stated, TotalsOf, Lookup, AnyReport;
  }

  lemma NextKeepsStanding(ops: seq<Op>, op: Op, doc: Document)
    requires op.Workers? ==> KeepsStanding(ops, doc)
    ensures KeepsStanding(ops + [op], Apply(op, doc))
  {
    ApplyTouches(op, doc, "");
    assert (ops + [op])[..|ops|] == ops;
    hide Apply, Stated, Lookup;
  }

  /**
   No update is lost: each location, worker kind and live report, the status with its reason, and the times
   are what the last update to that part said; the totals are those of the locations.
   */
  lemma {:induction false} ReplayKeepsLastWord(ops: seq<Op>, location: string, kind: string)
    requires ops != []
    ensures KeepsLastWord(ops, Replay(ops).value, location, kind)
  {
    hide Apply, KeepsParts, KeepsStanding, Starting, Stated, TotalsOf, Lookup;
    var before, last := ops[..|ops| - 1], ops[|ops| - 1];
    var doc := if before == [] then Starting(last) else Replay(before).value;
    if before == [] {
      BlankFacts(last, location, kind);
    } else {
      ReplayKeepsLastWord(before, location, kind);
    }
    ApplyTouches(last, doc, location);
    NextKeepsParts(before, last, doc, location, kind);
    NextKeepsStanding(before, last, doc);
    assert before + [last] == ops;
  }
}
