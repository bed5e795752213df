/** Keyset pagination of analysis runs (internal/analysis/history.go). */
module RunHistory {
  import opened Wrappers
  import opened ByteStrings
  import opened Base64

  const NUL: Byte := 0

  // ----- the cursor -----

  function EncodeCursor(startedAt: Bytes, id: Bytes): Bytes {
    Encode(startedAt + [NUL] + id)
  }

  /** The parts of a byte string between its NULs. */
  function Split(data: Bytes): (parts: seq<Bytes>)
    ensures parts != []
  {
    if data == [] then [[]]
    else
      var rest := Split(data[1..]);
      if data[0] == NUL then [[]] + rest else [[data[0]] + rest[0]] + rest[1..]
  }

  datatype QueryError = UnknownOperation | LimitTooLarge | InvalidCursor

  /** `timestamp` stands for the two layouts time.Parse accepts. */
  function DecodeCursor(cursor: Bytes, timestamp: Bytes -> bool): Result<(Bytes, Bytes), QueryError> {
    match Decode(cursor)
    case None => Err(InvalidCursor)
    case Some(raw) =>
      var parts := Split(raw);
      if |parts| != 2 || parts[0] == [] || parts[1] == [] then Err(InvalidCursor)
      else if !timestamp(parts[0]) then Err(InvalidCursor)
      else if CR in parts[1] || LF in parts[1] then Err(InvalidCursor)
      else Ok((parts[0], parts[1]))
  }

  predicate Encodable(startedAt: Bytes, id: Bytes, timestamp: Bytes -> bool) {
    && startedAt != [] && NUL !in startedAt && timestamp(startedAt)
    && id != [] && NUL !in id && CR !in id && LF !in id
  }

  lemma {:induction false} SplitPlain(data: Bytes)
    ensures NUL !in data <==> Split(data) == [data]
    ensures NUL in data ==> |Split(data)| >= 2
  {
    if data != [] {
      SplitPlain(data[1..]);
      assert data == [data[0]] + data[1..];
    }
  }

  lemma {:induction false} SplitPair(a: Bytes, b: Bytes)
    ensures NUL !in a && NUL !in b ==> Split(a + [NUL] + b) == [a, b]
    ensures NUL in a || NUL in b ==> |Split(a + [NUL] + b)| > 2
  {
    var data := a + [NUL] + b;
    if a == [] {
      SplitPlain(b);
      assert data[1..] == b;
    } else {
      SplitPair(a[1..], b);
      assert data[1..] == a[1..] + [NUL] + b;
      assert a == [a[0]] + a[1..];
    }
  }

  /** A cursor comes back as the pair it was made from exactly when that pair is
      one the decoder admits; any other pair makes a cursor that is refused. */
  lemma CursorRoundTrip(startedAt: Bytes, id: Bytes, timestamp: Bytes -> bool)
    ensures DecodeCursor(EncodeCursor(startedAt, id), timestamp)
            == if Encodable(startedAt, id, timestamp) then Ok((startedAt, id)) else Err(InvalidCursor)
    ensures EncodeCursor(startedAt, id) != []
  {
    var raw := startedAt + [NUL] + id;
    DecodeInvertsEncode(raw);
    EncodeNonEmpty(raw);
    SplitPair(startedAt, id);
  }

  /** Whatever text decodes, it decodes to a pair that a cursor can be made of. */
  lemma DecodedIsEncodable(cursor: Bytes, timestamp: Bytes -> bool)
    ensures DecodeCursor(cursor, timestamp).Ok? ==>
              var pair := DecodeCursor(cursor, timestamp).value;
              Encodable(pair.0, pair.1, timestamp)
  {
    if Decode(cursor).Some? { SplitParts(Decode(cursor).value); }
  }

  lemma {:induction false} SplitParts(data: Bytes)
    ensures forall part :: part in Split(data) ==> NUL !in part
  {
    if data != [] { SplitParts(data[1..]); }
  }

  // ----- runs in their order -----

  datatype Operation = Any | ArticleAnalysis | Explore | SentenceTranslation | Unknown

  datatype Run = Run(id: Bytes, article: Bytes, operation: Operation, startedAt: Bytes)

  /** r is older than the run that started at `startedAt` under `id`. */
  predicate OlderThan(r: Run, startedAt: Bytes, id: Bytes) {
    Before(r.startedAt, startedAt) || (r.startedAt == startedAt && Before(r.id, id))
  }

  predicate Older(r: Run, s: Run) {
    OlderThan(r, s.startedAt, s.id)
  }

  lemma OlderTotal(r: Run, s: Run)
    ensures Older(r, s) || Older(s, r) || (r.startedAt == s.startedAt && r.id == s.id)
    ensures Older(r, s) ==> !Older(s, r) && r != s
  {
    BeforeTotal(r.startedAt, s.startedAt);
    BeforeTotal(r.id, s.id);
    if Before(r.startedAt, s.startedAt) { BeforeAsymmetric(r.startedAt, s.startedAt); }
    if Before(r.id, s.id) { BeforeAsymmetric(r.id, s.id); }
  }

  lemma OlderTransitive(r: Run, s: Run, startedAt: Bytes, id: Bytes)
    requires Older(r, s) && OlderThan(s, startedAt, id)
    ensures OlderThan(r, startedAt, id)
  {
    if Before(r.startedAt, s.startedAt) && Before(s.startedAt, startedAt) {
      BeforeTransitive(r.startedAt, s.startedAt, startedAt);
    }
    if Before(r.id, s.id) && Before(s.id, id) {
      BeforeTransitive(r.id, s.id, id);
    }
  }

  predicate UniqueIds(runs: set<Run>) {
    forall r, s :: r in runs && s in runs && r.id == s.id ==> r == s
  }

  /** ORDER BY started_at DESC, id DESC. */
  ghost predicate Newest(runs: set<Run>, m: Run) {
    m in runs && forall r :: r in runs && r != m ==> Older(r, m)
  }

  lemma {:induction false} HasNewest(runs: set<Run>) returns (m: Run)
    requires runs != {} && UniqueIds(runs)
    ensures Newest(runs, m)
    decreases |runs|
  {
    var r :| r in runs;
    if runs == {r} {
      m := r;
    } else {
      var rest := runs - {r};
      assert runs == rest + {r};
      m := HasNewest(rest);
      OlderTotal(r, m);
      if Older(m, r) {
        forall s | s in runs && s != r && s != m ensures Older(s, r) {
          OlderTransitive(s, m, r.startedAt, r.id);
        }
        m := r;
      }
    }
  }

  ghost function SortedDesc(runs: set<Run>): seq<Run>
    requires UniqueIds(runs)
    decreases |runs|
  {
    if runs == {} then []
    else
      assert exists m :: Newest(runs, m) by { var m := HasNewest(runs); }
      var m :| Newest(runs, m);
      [m] + SortedDesc(runs - {m})
  }

  ghost predicate Descending(s: seq<Run>) {
    forall i, j :: 0 <= i < j < |s| ==> Older(s[j], s[i])
  }

  ghost predicate SameRuns(s: seq<Run>, runs: set<Run>) {
    forall r :: r in s <==> r in runs
  }

  lemma {:induction false} SortedIsSorted(runs: set<Run>)
    requires UniqueIds(runs)
    ensures Descending(SortedDesc(runs)) && SameRuns(SortedDesc(runs), runs)
    decreases |runs|
  {
    if runs != {} {
      var s := SortedDesc(runs);
      SortedIsSorted(runs - {s[0]});
      assert Newest(runs, s[0]) && s[1..] == SortedDesc(runs - {s[0]});
      forall j | 1 <= j < |s| ensures Older(s[j], s[0]) {
        assert s[j] in s[1..];
      }
      forall i, j | 1 <= i < j < |s| ensures Older(s[j], s[i]) {
        assert s[j] == s[1..][j - 1] && s[i] == s[1..][i - 1];
      }
    }
  }

  /** Newest first: by descending start, and by descending id where those are
      equal; BeforeIsLexicographic says what comes before what. */
  lemma NewestFirst(runs: set<Run>, i: nat, j: nat)
    requires UniqueIds(runs) && i < j < |SortedDesc(runs)|
    ensures var newer, older := SortedDesc(runs)[i], SortedDesc(runs)[j];
      Before(older.startedAt, newer.startedAt)
      || (older.startedAt == newer.startedAt && Before(older.id, newer.id))
  {
    SortedIsSorted(runs);
  }

  lemma FirstIn(s: seq<Run>)
    ensures s != [] ==> s[0] in s
  {}

  /** Only one sequence lists a set of runs newest first. */
  lemma {:induction false} SortedUnique(s: seq<Run>, t: seq<Run>, runs: set<Run>)
    requires Descending(s) && Descending(t) && SameRuns(s, runs) && SameRuns(t, runs)
    ensures s == t
  {
    if s == [] {
      FirstIn(t);
    } else {
      assert s[0] in t;
      assert t[0] in s;
      var i :| 0 <= i < |t| && t[i] == s[0];
      var j :| 0 <= j < |s| && s[j] == t[0];
      if i > 0 && j > 0 { OlderTotal(s[0], t[0]); }
      assert s[0] == t[0];
      TailRuns(s, runs);
      TailRuns(t, runs);
      SortedUnique(s[1..], t[1..], runs - {s[0]});
    }
  }

  lemma TailRuns(s: seq<Run>, runs: set<Run>)
    requires s != [] && Descending(s) && SameRuns(s, runs)
    ensures Descending(s[1..]) && SameRuns(s[1..], runs - {s[0]})
  {
    forall r ensures r in s[1..] <==> r in runs - {s[0]} {
      if r in s[1..] {
        var j :| 1 <= j < |s| && s[j] == r;
        OlderTotal(s[j], s[0]);
      }
    }
  }

  // ----- one page -----

  /** `operation` is the trimmed text; an article of blanks selects every article. */
  datatype Filter = Filter(article: Bytes, operation: Operation)

  predicate Matches(f: Filter, r: Run) {
    (Blank(f.article) || r.article == f.article) && (f.operation.Any? || r.operation == f.operation)
  }

  datatype Page = Page(runs: seq<Run>, next: Bytes)

  const DEFAULT_LIMIT := 20
  const MAX_LIMIT := 50

  function Selected(runs: set<Run>, f: Filter): set<Run> {
    set r | r in runs && Matches(f, r)
  }

  function Past(runs: set<Run>, startedAt: Bytes, id: Bytes): set<Run> {
    set r | r in runs && OlderThan(r, startedAt, id)
  }

  function PageSize(limit: int): (n: int)
    ensures n > 0
  {
    if limit <= 0 then DEFAULT_LIMIT else limit
  }

  /** The rows a query may return: all selected runs, or those past the cursor. */
  function Candidates(runs: set<Run>, f: Filter, limit: int, cursor: Bytes,
                      timestamp: Bytes -> bool): Result<set<Run>, QueryError> {
    if f.operation.Unknown? then Err(UnknownOperation)
    else if PageSize(limit) > MAX_LIMIT then Err(LimitTooLarge)
    else if cursor == [] then Ok(Selected(runs, f))
    else
      match DecodeCursor(cursor, timestamp)
      case Err(e) => Err(e)
      case Ok((startedAt, id)) => Ok(Past(Selected(runs, f), startedAt, id))
  }

  lemma CandidatesUnique(runs: set<Run>, f: Filter, limit: int, cursor: Bytes, timestamp: Bytes -> bool)
    requires UniqueIds(runs) && Candidates(runs, f, limit, cursor, timestamp).Ok?
    ensures UniqueIds(Candidates(runs, f, limit, cursor, timestamp).value)
  {}

  /** The first `size` of the rows, and the cursor of the last when rows remain. */
  function FirstPage(rows: seq<Run>, size: nat): Page
    requires size > 0
  {
    if |rows| > size then Page(rows[..size], EncodeCursor(rows[size - 1].startedAt, rows[size - 1].id))
    else Page(rows, [])
  }

  ghost function PageOf(runs: set<Run>, f: Filter, limit: int, cursor: Bytes,
                        timestamp: Bytes -> bool): Result<Page, QueryError>
    requires UniqueIds(runs)
  {
    match Candidates(runs, f, limit, cursor, timestamp)
    case Err(e) => Err(e)
    case Ok(rows) =>
      CandidatesUnique(runs, f, limit, cursor, timestamp);
      Ok(FirstPage(SortedDesc(rows), PageSize(limit)))
  }

  /** What a query refuses, and what a page holds at most, at least, and besides. */
  lemma PageTold(runs: set<Run>, f: Filter, limit: int, cursor: Bytes, timestamp: Bytes -> bool)
    requires UniqueIds(runs)
    ensures var page, size := PageOf(runs, f, limit, cursor, timestamp), if limit <= 0 then 20 else limit;
      && (page.Err? <==> f.operation.Unknown? || size > 50 || (cursor != [] && DecodeCursor(cursor, timestamp).Err?))
      && (page.Ok? ==>
            && |page.value.runs| <= size
            && (forall r :: r in page.value.runs ==> r in runs && Wanted(f, r))
            && (page.value.next == [] && cursor == [] ==>
                  forall r :: r in runs && Wanted(f, r) ==> r in page.value.runs)
            && (page.value.next != [] ==> |page.value.runs| == size))
  {
    var rows := Candidates(runs, f, limit, cursor, timestamp);
    if rows.Ok? {
      CandidatesUnique(runs, f, limit, cursor, timestamp);
      SortedIsSorted(rows.value);
      BlankIffSpaces(f.article);
      var s, size := SortedDesc(rows.value), PageSize(limit);
      if |s| > size { CursorRoundTrip(s[size - 1].startedAt, s[size - 1].id, timestamp); }
      assert forall r :: r in FirstPage(s, size).runs ==> r in s;
    }
  }

  /** The run is of the article and the operation asked for, if any. */
  predicate Wanted(f: Filter, r: Run) {
    && (r.article == f.article || OnlySpaces(f.article))
    && (r.operation == f.operation || f.operation.Any?)
  }

  /** The newest of some runs, as ORDER BY with LIMIT finds it. */
  method NewestOf(runs: set<Run>) returns (m: Run)
    requires runs != {} && UniqueIds(runs)
    ensures Newest(runs, m)
  {
    m :| m in runs;
    var rest := runs - {m};
    while rest != {}
      invariant rest <= runs && m in runs && m !in rest
      invariant forall r :: r in runs && r !in rest && r != m ==> Older(r, m)
    {
      var r :| r in rest;
      rest := rest - {r};
      OlderTotal(r, m);
      if Older(m, r) {
        forall s | s in runs && s !in rest && s != r && s != m ensures Older(s, r) {
          OlderTransitive(s, m, r.startedAt, r.id);
        }
        m := r;
      }
    }
  }

  lemma NewestUnique(runs: set<Run>, m: Run)
    requires UniqueIds(runs) && Newest(runs, m)
    ensures SortedDesc(runs) == [m] + SortedDesc(runs - {m})
  {
    var s := SortedDesc(runs);
    if s[0] != m { OlderTotal(s[0], m); }
  }

  lemma TakeStep(all: seq<Run>, found: seq<Run>, left: set<Run>, m: Run)
    requires UniqueIds(left) && Newest(left, m) && all == found + SortedDesc(left)
    ensures UniqueIds(left - {m}) && all == found + [m] + SortedDesc(left - {m})
  {
    NewestUnique(left, m);
    assert found + ([m] + SortedDesc(left - {m})) == found + [m] + SortedDesc(left - {m});
  }

  /** ORDER BY with LIMIT n. */
  method TakeNewest(rows: set<Run>, n: nat) returns (found: seq<Run>)
    requires UniqueIds(rows)
    ensures found <= SortedDesc(rows) && |found| <= n
    ensures |found| < n ==> found == SortedDesc(rows)
  {
    ghost var all := SortedDesc(rows);
    var left := rows;
    found := [];
    while left != {} && |found| < n
      invariant UniqueIds(left) && |found| <= n
      invariant all == found + SortedDesc(left)
      decreases |left|
    {
      var m := NewestOf(left);
      TakeStep(all, found, left, m);
      left, found := left - {m}, found + [m];
    }
    assert all[..|found|] == found;
    if left == {} { assert found + SortedDesc(left) == found; }
  }

  /** One row more than the page is asked for, to learn whether rows remain. */
  method ListRunsFiltered(runs: set<Run>, f: Filter, limit: int, cursor: Bytes, timestamp: Bytes -> bool)
    returns (page: Result<Page, QueryError>)
    requires UniqueIds(runs)
    ensures page == PageOf(runs, f, limit, cursor, timestamp)
  {
    if f.operation.Unknown? { return Err(UnknownOperation); }
    var size := limit;
    if size <= 0 { size := DEFAULT_LIMIT; }
    if size > MAX_LIMIT { return Err(LimitTooLarge); }
    var rows := Selected(runs, f);
    if cursor != [] {
      var decoded := DecodeCursor(cursor, timestamp);
      if decoded.Err? { return Err(decoded.error); }
      rows := Past(rows, decoded.value.0, decoded.value.1);
    }
    assert Candidates(runs, f, limit, cursor, timestamp) == Ok(rows);
    CandidatesUnique(runs, f, limit, cursor, timestamp);
    var found := TakeNewest(rows, size + 1);
    ghost var sorted := SortedDesc(rows);
    assert |found| > size ==> found[..size] == sorted[..size] && found[size - 1] == sorted[size - 1];
    var next: Bytes := [];
    if |found| > size {
      var last := found[size - 1];
      found := found[..size];
      next := EncodeCursor(last.startedAt, last.id);
    }
    page := Ok(Page(found, next));
  }

  // ----- following next_cursor -----

  /** What every page of a listing is cut from. */
  ghost function Listing(runs: set<Run>, f: Filter): (s: seq<Run>)
    requires UniqueIds(runs)
  {
    SortedDesc(Selected(runs, f))
  }

  ghost predicate AllEncodable(runs: set<Run>, timestamp: Bytes -> bool) {
    forall r :: r in runs ==> Encodable(r.startedAt, r.id, timestamp)
  }

  /** Only runs newer than the n-th of the listing were added. */
  ghost predicate OnlyNewerAdded(runs: set<Run>, now: set<Run>, f: Filter, n: nat)
    requires UniqueIds(runs)
  {
    && runs <= now && UniqueIds(now)
    && (0 < n <= |Listing(runs, f)| ==> forall r :: r in now && r !in runs ==> Older(Listing(runs, f)[n - 1], r))
  }

  ghost function CursorAt(s: seq<Run>, n: nat): Bytes
    requires n <= |s|
  {
    if n == 0 then [] else EncodeCursor(s[n - 1].startedAt, s[n - 1].id)
  }

  lemma {:induction false} DropSorted(s: seq<Run>, runs: set<Run>, n: nat)
    requires Descending(s) && SameRuns(s, runs) && 0 < n <= |s|
    ensures Descending(s[n..])
    ensures SameRuns(s[n..], Past(runs, s[n - 1].startedAt, s[n - 1].id))
  {
    forall r ensures r in s[n..] <==> r in Past(runs, s[n - 1].startedAt, s[n - 1].id) {
      if r in s[n..] {
        var j :| n <= j < |s| && s[j] == r;
        assert Older(s[j], s[n - 1]);
      } else if r in runs {
        var j :| 0 <= j < n && s[j] == r;
        if j < n - 1 { OlderTotal(s[n - 1], s[j]); } else { OlderTotal(r, r); }
      }
    }
  }

  lemma PastIgnoresNewer(runs: set<Run>, now: set<Run>, f: Filter, n: nat)
    requires UniqueIds(runs) && 0 < n <= |Listing(runs, f)| && OnlyNewerAdded(runs, now, f, n)
    ensures var c := Listing(runs, f)[n - 1];
      Past(Selected(now, f), c.startedAt, c.id) == Past(Selected(runs, f), c.startedAt, c.id)
  {
    var c := Listing(runs, f)[n - 1];
    forall r | r in Past(Selected(now, f), c.startedAt, c.id) ensures r in runs {
      OlderTotal(r, c);
    }
  }

  /** Resuming after the n-th run yields what follows it in the listing as it
      was at the start, whatever newer runs have come since. */
  lemma ResumedPage(runs: set<Run>, now: set<Run>, f: Filter, limit: int, n: nat, timestamp: Bytes -> bool)
    requires UniqueIds(runs) && AllEncodable(runs, timestamp) && !f.operation.Unknown? && PageSize(limit) <= MAX_LIMIT
    requires n <= |Listing(runs, f)| && OnlyNewerAdded(runs, now, f, n) && (n == 0 ==> now == runs)
    ensures PageOf(now, f, limit, CursorAt(Listing(runs, f), n), timestamp)
      == Ok(FirstPage(Listing(runs, f)[n..], PageSize(limit)))
  {
    var s := Listing(runs, f);
    SortedIsSorted(Selected(runs, f));
    if n > 0 {
      var c := s[n - 1];
      assert c in s;
      CursorRoundTrip(c.startedAt, c.id, timestamp);
      PastIgnoresNewer(runs, now, f, n);
      var past := Past(Selected(runs, f), c.startedAt, c.id);
      DropSorted(s, Selected(runs, f), n);
      SortedIsSorted(past);
      SortedUnique(s[n..], SortedDesc(past), past);
    }
  }

  /** A page of a listing, and where its cursor points. */
  lemma PageStep(s: seq<Run>, n: nat, size: nat)
    requires size > 0 && n <= |s|
    ensures var page := FirstPage(s[n..], size);
      if n + size < |s| then s[..n] + page.runs == s[..n + size] && page.next == CursorAt(s, n + size) != []
      else s[..n] + page.runs == s && page.next == []
  {}

  /** A reader who follows next_cursor sees every selected run once, newest
      first, and comes to an end; tables(n) is the table when n runs have been
      read. */
  method FollowCursors(tables: nat -> set<Run>, f: Filter, limit: int, timestamp: Bytes -> bool)
    returns (seen: seq<Run>)
    requires UniqueIds(tables(0)) && AllEncodable(tables(0), timestamp)
    requires !f.operation.Unknown? && PageSize(limit) <= MAX_LIMIT
    requires forall n: nat :: OnlyNewerAdded(tables(0), tables(n), f, n)
    ensures seen == Listing(tables(0), f)
  {
    ghost var all := Listing(tables(0), f);
    var cursor, more := [], true;
    seen := [];
    while more
      invariant |seen| <= |all| && seen == all[..|seen|]
      invariant if more then cursor == CursorAt(all, |seen|) else seen == all
      decreases more, |all| - |seen|
    {
      var page := ListRunsFiltered(tables(|seen|), f, limit, cursor, timestamp);
      ResumedPage(tables(0), tables(|seen|), f, limit, |seen|, timestamp);
      PageStep(all, |seen|, PageSize(limit));
      seen, cursor := seen + page.value.runs, page.value.next;
      more := cursor != [];
    }
  }
}
