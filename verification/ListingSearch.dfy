/** Listing search: keyset cursors, the bounded batch scan, and walks over its pages. */
module ListingSearch {
  import opened Order
  import opened Wrappers
  import opened ListingModel

  // ---------------------------------------------------------------- page order

  function Rank(f: Freshness): nat { if f == Fresh then 0 else 1 }

  /** Order by freshness rank asc, updated_at desc, id desc. */
  predicate Before(a: Listing, b: Listing) {
    || Rank(a.freshness) < Rank(b.freshness)
    || (&& a.freshness == b.freshness
        && (|| TextBefore(b.updatedAt, a.updatedAt)
            || (a.updatedAt == b.updatedAt && b.id < a.id)))
  }

  lemma BeforeStrict(rows: seq<Listing>)
    requires WellFormed(rows)
    ensures StrictOrder(Before) && Decides(Before, rows)
  {
    TextStrictTotal();
  }

  // ---------------------------------------------------------------- cursor text

  /** A three-part cursor, or the two-part form issued before freshness ranking. */
  datatype Cursor =
    | Keyed(rank: nat, updatedAt: string, listingId: string)
    | Legacy(updatedAt: string, listingId: string)

  datatype SearchError = LimitOutOfRange | MalformedCursor

  function CursorOf(r: Listing): Cursor { Keyed(Rank(r.freshness), r.updatedAt, r.listingId) }

  function Encode(r: Listing): string {
    (if r.freshness == Fresh then "0" else "1") + "|" + r.updatedAt + "|" + r.listingId
  }

  function Split(s: string): (parts: seq<string>)
    ensures |parts| >= 1
  {
    if s == "" then [""]
    else if s[0] == '|' then [""] + Split(s[1..])
    else var rest := Split(s[1..]); [[s[0]] + rest[0]] + rest[1..]
  }

  function Decode(s: string): Result<Cursor, SearchError> {
    var parts := Split(s);
    if |parts| == 3 then
      if parts[0] == "0" then Ok(Keyed(0, parts[1], parts[2]))
      else if parts[0] == "1" then Ok(Keyed(1, parts[1], parts[2]))
      else Err(MalformedCursor)
    else if |parts| == 2 then Ok(Legacy(parts[0], parts[1]))
    else Err(MalformedCursor)
  }

  lemma {:induction false} SplitCell(a: string, rest: string)
    requires Plain(a)
    ensures Split(a) == [a]
    ensures Split(a + "|" + rest) == [a] + Split(rest)
  {
    var s := a + "|" + rest;
    if a == "" {
      assert s[1..] == rest;
    } else {
      SplitCell(a[1..], rest);
      assert s[1..] == a[1..] + "|" + rest;
      assert a == [a[0]] + a[1..];
    }
  }

  /** A cursor the server issues is read back as the sort key it was made from. */
  lemma CursorRoundTrip(r: Listing)
    requires Plain(r.updatedAt) && Plain(r.listingId)
    ensures Decode(Encode(r)) == Ok(CursorOf(r)) && Encode(r) != ""
  {
    var head := if r.freshness == Fresh then "0" else "1";
    var tail := r.updatedAt + "|" + r.listingId;
    assert Encode(r) == head + "|" + tail;
    SplitCell(head, tail);
    SplitCell(r.updatedAt, r.listingId);
    SplitCell(r.listingId, "");
  }

  lemma {:induction false} SplitJoins(s: string)
    ensures forall part :: part in Split(s) ==> Plain(part)
    ensures |Split(s)| == 1 ==> s == Split(s)[0]
    ensures |Split(s)| == 2 ==> s == Split(s)[0] + "|" + Split(s)[1]
    ensures |Split(s)| == 3 ==> s == Split(s)[0] + "|" + Split(s)[1] + "|" + Split(s)[2]
  {
    if s != "" {
      var rest := Split(s[1..]);
      SplitJoins(s[1..]);
      assert s == [s[0]] + s[1..];
      assert rest[0] in rest;
      assert forall part :: part in Split(s) ==> part in rest || part == "" || part == [s[0]] + rest[0];
    }
  }

  lemma DecodeParts(rank: string, updatedAt: string, listingId: string)
    requires Plain(rank) && Plain(updatedAt) && Plain(listingId)
    ensures Split(rank + "|" + updatedAt + "|" + listingId) == [rank, updatedAt, listingId]
    ensures Split(updatedAt + "|" + listingId) == [updatedAt, listingId]
  {
    SplitCell(listingId, "");
    SplitCell(updatedAt, listingId);
    SplitCell(rank, updatedAt + "|" + listingId);
    assert rank + "|" + updatedAt + "|" + listingId == rank + "|" + (updatedAt + "|" + listingId);
  }

  /** Exactly these texts are cursors: a rank 0 or 1, a time and a listing id, or a time and a listing id. */
  lemma DecodeExactly(s: string, updatedAt: string, listingId: string)
    ensures Decode(s) == Ok(Keyed(0, updatedAt, listingId)) <==>
            Plain(updatedAt) && Plain(listingId) && s == "0" + "|" + updatedAt + "|" + listingId
    ensures Decode(s) == Ok(Keyed(1, updatedAt, listingId)) <==>
            Plain(updatedAt) && Plain(listingId) && s == "1" + "|" + updatedAt + "|" + listingId
    ensures Decode(s) == Ok(Legacy(updatedAt, listingId)) <==>
            Plain(updatedAt) && Plain(listingId) && s == updatedAt + "|" + listingId
    ensures Decode(s).Ok? && Decode(s).value.Keyed? ==> Decode(s).value.rank <= 1
    ensures Decode(s).Err? ==> Decode(s).error == MalformedCursor
  {
    if Plain(updatedAt) && Plain(listingId) {
      DecodeParts("0", updatedAt, listingId);
      DecodeParts("1", updatedAt, listingId);
    }
    SplitJoins(s);
    var parts := Split(s);
    assert forall i :: 0 <= i < |parts| ==> parts[i] in parts;
  }

  // ---------------------------------------------------------------- where clause

  /** The filters of one search; owner "" stands for any owner. */
  datatype Query = Query(owner: string, filter: (ListingType, string) -> bool, freshness: Option<Freshness>)

  /** What one page request sees of the database. */
  datatype Snapshot = Snapshot(rows: seq<Listing>, agents: map<string, Agent>, shareCode: string -> bool)

  predicate Matches(snap: Snapshot, q: Query, r: Listing) {
    && r.state == Active
    && r.hold == NO_HOLD
    && (q.owner == "" || r.owner == q.owner)
    && q.filter(r.listingType, r.content)
    && (q.freshness.Some? ==> r.freshness == q.freshness.value)
    && !(r.owner in snap.agents && snap.agents[r.owner].Blocked())
  }

  predicate Visible(snap: Snapshot, r: Listing) {
    r.hold != QUARANTINE_HOLD && !snap.shareCode(r.content)
  }

  function VisibleRows(snap: Snapshot, s: seq<Listing>): seq<Listing> {
    Select(r => Visible(snap, r), s)
  }

  /** select id from commerce_listings where listing_id = ? */
  function IdOf(rows: seq<Listing>, listingId: string): Option<nat> {
    if rows == [] then None
    else if rows[0].listingId == listingId then Some(rows[0].id)
    else IdOf(rows[1..], listingId)
  }

  /** updated_at and id below those of the cursor; a cursor row that is gone makes the id comparison unknown,
      hence false. */
  predicate Older(rows: seq<Listing>, c: Cursor, r: Listing) {
    var id := IdOf(rows, c.listingId);
    TextBefore(r.updatedAt, c.updatedAt) || (r.updatedAt == c.updatedAt && id.Some? && r.id < id.value)
  }

  /** The keyset predicate; a two-part cursor keeps the one it was issued with, which knows no rank. */
  predicate After(rows: seq<Listing>, c: Cursor, r: Listing) {
    match c
    case Keyed(rank, _, _) => Rank(r.freshness) > rank || (Rank(r.freshness) == rank && Older(rows, c, r))
    case Legacy(_, _) => Older(rows, c, r)
  }

  predicate InScope(snap: Snapshot, q: Query, at: Option<Cursor>, r: Listing) {
    Matches(snap, q, r) && (at.Some? ==> After(snap.rows, at.value, r))
  }

  /** Every row the where clause admits, in page order. */
  function Remaining(snap: Snapshot, q: Query, at: Option<Cursor>): seq<Listing> {
    SortBy(Before, Select(r => InScope(snap, q, at, r), snap.rows))
  }

  /** The select statement itself: where, order by, limit. */
  function Fetch(snap: Snapshot, q: Query, at: Option<Cursor>, count: nat): seq<Listing> {
    Take(Remaining(snap, q, at), count)
  }

  function Take(s: seq<Listing>, n: nat): seq<Listing> { if |s| <= n then s else s[..n] }

  lemma {:induction false} IdOfRow(rows: seq<Listing>, r: Listing)
    requires WellFormed(rows) && r in rows
    ensures IdOf(rows, r.listingId) == Some(r.id)
  {
    if rows[0] != r {
      assert forall x :: x in rows[1..] ==> x in rows;
      IdOfRow(rows[1..], r);
    }
  }

  /** The keyset predicate at a listed row is "strictly behind it in page order". */
  lemma AfterRow(rows: seq<Listing>, b: Listing, r: Listing)
    requires WellFormed(rows) && b in rows
    ensures After(rows, CursorOf(b), r) == Before(b, r)
  {
    IdOfRow(rows, b);
  }

  /** Scopes only shrink along the page order. */
  lemma AfterUpward(rows: seq<Listing>, c: Cursor, a: Listing, b: Listing)
    requires c.Keyed? && After(rows, c, a) && Before(a, b)
    ensures After(rows, c, b)
  {
    if TextBefore(b.updatedAt, a.updatedAt) && TextBefore(a.updatedAt, c.updatedAt) {
      assert TextBefore(b.updatedAt, c.updatedAt) by { TextStrictTotal(); }
    }
  }

  /** Continuing from the j-th remaining row leaves exactly the rows behind it. */
  lemma RemainingAfter(snap: Snapshot, q: Query, at: Option<Cursor>, j: nat)
    requires WellFormed(snap.rows)
    requires at.Some? ==> at.value.Keyed?
    requires j < |Remaining(snap, q, at)|
    ensures Remaining(snap, q, Some(CursorOf(Remaining(snap, q, at)[j]))) == Remaining(snap, q, at)[j + 1..]
  {
    var scope := r => InScope(snap, q, at, r);
    var b := Remaining(snap, q, at)[j];
    var next := r => InScope(snap, q, Some(CursorOf(b)), r);
    RemainingRows(snap, q, at);
    assert b in Remaining(snap, q, at);
    forall r | r in snap.rows ensures next(r) == (scope(r) && Before(b, r)) {
      AfterRow(snap.rows, b, r);
      if Before(b, r) && at.Some? {
        AfterUpward(snap.rows, at.value, b, r);
      }
    }
    BeforeStrict(snap.rows);
    ContinueAfter(Before, scope, next, snap.rows, j);
  }

  /** The remaining rows are the rows in scope, each once, strictly in page order. */
  lemma RemainingRows(snap: Snapshot, q: Query, at: Option<Cursor>)
    requires WellFormed(snap.rows)
    ensures Sorted(Before, Remaining(snap, q, at))
    ensures forall r :: r in Remaining(snap, q, at) ==> r in snap.rows && InScope(snap, q, at, r)
    ensures forall r :: r in snap.rows && InScope(snap, q, at, r) ==> r in Remaining(snap, q, at)
    ensures |Remaining(snap, q, at)| <= |snap.rows|
  {
    var scope := r => InScope(snap, q, at, r);
    BeforeStrict(snap.rows);
    SelectDecides(Before, scope, snap.rows);
    SortSorted(Before, Select(scope, snap.rows));
    SortMembers(Before, Select(scope, snap.rows));
    SelectBounds(scope, snap.rows);
  }

  // ---------------------------------------------------------------- one page

  datatype Page = Page(results: seq<Listing>, next: string)

  const MAX_SCAN_ROWS := 500

  /** A page, described without batches: the first 500 remaining rows are read, hidden ones are dropped,
      and the cursor points at the last returned row, or at the last row read when the budget is spent. */
  function PageFrom(snap: Snapshot, rem: seq<Listing>, limit: nat): Page
    requires limit >= 1
  {
    PageShown(rem, VisibleRows(snap, Read(rem)), limit)
  }

  function Read(rem: seq<Listing>): seq<Listing> {
    if |rem| <= MAX_SCAN_ROWS then rem else rem[..MAX_SCAN_ROWS]
  }

  function PageShown(rem: seq<Listing>, shown: seq<Listing>, limit: nat): Page
    requires limit >= 1
  {
    if |shown| > limit then Page(shown[..limit], Encode(shown[limit - 1]))
    else if |rem| >= MAX_SCAN_ROWS then Page(shown, Encode(rem[MAX_SCAN_ROWS - 1]))
    else Page(shown, "")
  }

  function BatchSize(limit: nat): nat { Min(Max(limit + 1, 20), 200) }

  /** The rows that a page is read from. Behind a two-part cursor only the first batch is read with the old
      predicate; if it is full, the scan goes on with the keyset predicate behind its last row. */
  function RowsAhead(snap: Snapshot, q: Query, at: Option<Cursor>, limit: nat): seq<Listing> {
    if at.Some? && at.value.Legacy? then
      var first := Fetch(snap, q, at, BatchSize(limit));
      if |first| < BatchSize(limit) then first
      else first + Remaining(snap, q, Some(CursorOf(first[|first| - 1])))
    else Remaining(snap, q, at)
  }

  function PageOf(snap: Snapshot, q: Query, at: Option<Cursor>, limit: nat): Page
    requires limit >= 1
  {
    PageFrom(snap, RowsAhead(snap, q, at, limit), limit)
  }

  lemma AheadMatches(snap: Snapshot, q: Query, at: Option<Cursor>, limit: nat)
    requires WellFormed(snap.rows)
    ensures forall r :: r in RowsAhead(snap, q, at, limit) ==> r in snap.rows && Matches(snap, q, r)
  {
    RemainingRows(snap, q, at);
    var first := Fetch(snap, q, at, BatchSize(limit));
    assert forall r :: r in first ==> r in Remaining(snap, q, at);
    if at.Some? && at.value.Legacy? && |first| == BatchSize(limit) {
      RemainingRows(snap, q, Some(CursorOf(first[|first| - 1])));
    }
  }

  /** Whatever the filters and the cursor: a page never holds more than limit listings, and each is a row of the
      table that is ACTIVE without a hold, is of the owner and freshness asked for, passes the filter, is free of
      share codes, and has an owner that is neither suspended nor rejected. */
  lemma ResultsArePublic(snap: Snapshot, q: Query, at: Option<Cursor>, limit: nat)
    requires WellFormed(snap.rows) && limit >= 1
    ensures |PageOf(snap, q, at, limit).results| <= limit
    ensures forall r :: r in PageOf(snap, q, at, limit).results ==>
              && r in snap.rows
              && r.state == Active && r.hold == 0
              && (q.owner == "" || r.owner == q.owner)
              && (q.freshness.Some? ==> r.freshness == q.freshness.value)
              && q.filter(r.listingType, r.content) && !snap.shareCode(r.content)
              && (r.owner in snap.agents ==> snap.agents[r.owner].admin == InGoodStanding)
  {
    var rem := RowsAhead(snap, q, at, limit);
    AheadMatches(snap, q, at, limit);
    SelectBounds(r => Visible(snap, r), Read(rem));
    var shown := VisibleRows(snap, Read(rem));
    forall r | r in PageOf(snap, q, at, limit).results ensures r in rem && Visible(snap, r) {
      assert r in shown;
      assert r in Read(rem);
    }
  }

  /** Where a cursor text resumes; "" is the start of the walk. */
  function Position(cursor: string): Result<Option<Cursor>, SearchError> {
    if cursor == "" then Ok(None)
    else match Decode(cursor)
      case Ok(c) => Ok(Some(c))
      case Err(e) => Err(e)
  }

  predicate TwoPart(cursor: string) {
    Position(cursor).Ok? && Position(cursor).value.Some? && Position(cursor).value.value.Legacy?
  }

  /** The text of a cursor made from the j-th remaining row resumes right behind that row. */
  lemma NextCursor(snap: Snapshot, q: Query, at: Option<Cursor>, j: nat)
    requires WellFormed(snap.rows)
    requires at.Some? ==> at.value.Keyed?
    requires j < |Remaining(snap, q, at)|
    ensures var rem := Remaining(snap, q, at);
            && Position(Encode(rem[j])) == Ok(Some(CursorOf(rem[j])))
            && Remaining(snap, q, Some(CursorOf(rem[j]))) == rem[j + 1..]
            && Encode(rem[j]) != ""
  {
    RemainingRows(snap, q, at);
    assert Remaining(snap, q, at)[j] in Remaining(snap, q, at);
    RemainingAfter(snap, q, at, j);
    CursorRoundTrip(Remaining(snap, q, at)[j]);
  }

  /** What the scan returns from the rows it collected. */
  function Finish(visible: seq<Listing>, limit: nat, exhausted: bool, lastScanned: Option<Listing>): Page
    requires limit >= 1
  {
    var results := if |visible| > limit then visible[..limit] else visible;
    Page(results,
         if |visible| > limit && results != [] then Encode(results[|results| - 1])
         else if exhausted && lastScanned.Some? then Encode(lastScanned.value)
         else "")
  }

  lemma FinishIsShown(rem: seq<Listing>, limit: nat, scanned: nat, visible: seq<Listing>, extra: seq<Listing>,
                      exhausted: bool, lastScanned: Option<Listing>)
    requires limit >= 1 && scanned <= |rem| && scanned <= MAX_SCAN_ROWS
    requires exhausted ==> scanned == MAX_SCAN_ROWS && lastScanned == Some(rem[scanned - 1])
    requires |visible| > limit || exhausted || scanned == |rem| < MAX_SCAN_ROWS
    requires scanned == |Read(rem)| ==> extra == []
    ensures Finish(visible, limit, exhausted, lastScanned) == PageShown(rem, visible + extra, limit)
  {
    if |visible| > limit {
      assert (visible + extra)[..limit] == visible[..limit];
      assert (visible + extra)[limit - 1] == visible[..limit][limit - 1];
    } else {
      assert scanned == |Read(rem)|;
      assert visible + extra == visible;
    }
  }

  /** However far the scan read ahead before it stopped, its outcome is the page. */
  lemma ScanIsPage(snap: Snapshot, rem: seq<Listing>, limit: nat,
                   scanned: nat, visible: seq<Listing>, exhausted: bool, lastScanned: Option<Listing>)
    requires limit >= 1
    requires scanned <= |rem| && scanned <= MAX_SCAN_ROWS
    requires visible == VisibleRows(snap, rem[..scanned])
    requires exhausted ==> scanned == MAX_SCAN_ROWS && lastScanned == Some(rem[scanned - 1])
    requires |visible| > limit || exhausted || scanned == |rem| < MAX_SCAN_ROWS
    ensures Finish(visible, limit, exhausted, lastScanned) == PageFrom(snap, rem, limit)
  {
    var rest := Read(rem)[scanned..];
    Halves(Read(rem), scanned);
    assert Read(rem)[..scanned] == rem[..scanned];
    VisibleConcat(snap, rem[..scanned], rest);
    FinishIsShown(rem, limit, scanned, visible, VisibleRows(snap, rest), exhausted, lastScanned);
  }

  lemma VisibleConcat(snap: Snapshot, a: seq<Listing>, b: seq<Listing>)
    ensures VisibleRows(snap, a + b) == VisibleRows(snap, a) + VisibleRows(snap, b)
    ensures b == [] ==> VisibleRows(snap, b) == []
  {
    SelectConcat(r => Visible(snap, r), a, b);
  }

  /** The queries of a scan: the next rows behind a cursor text, the cursor text of a row, and the row filter. */
  datatype Source = Source(read: (string, nat) -> Result<seq<Listing>, SearchError>,
                           text: Listing -> string,
                           show: seq<Listing> -> seq<Listing>)

  /** The source reads rem in order, its first batch from the cursor and everything else from behind any row that
      is not inside the first batch, and it filters row by row. */
  ghost predicate Feeds(src: Source, cursor: string, first: nat, rem: seq<Listing>) {
    && src.read(cursor, first) == Ok(Take(rem, first))
    && (forall j: nat, n: nat :: first <= j + 1 && j < |rem| ==>
          src.read(src.text(rem[j]), n) == Ok(Take(rem[j + 1..], n)))
    && src.show([]) == []
    && (forall k: nat, m: nat :: k <= m <= |rem| ==> src.show(rem[..m]) == src.show(rem[..k]) + src.show(rem[k..m]))
  }

  /** What the batch loop leaves behind. */
  datatype Scan = Scan(scanned: nat, visible: seq<Listing>, exhausted: bool, lastScanned: Option<Listing>)

  /** The batch loop: reads on behind the cursor until a page is full, the rows end or the budget is spent. */
  method ScanRows(src: Source, cursor: string, limit: nat, ghost rem: seq<Listing>)
    returns (r: Result<Scan, SearchError>)
    requires limit >= 1
    requires Feeds(src, cursor, BatchSize(limit), rem) || forall n: nat :: src.read(cursor, n) == Err(MalformedCursor)
    ensures !Feeds(src, cursor, BatchSize(limit), rem) ==> r == Err(MalformedCursor)
    ensures Feeds(src, cursor, BatchSize(limit), rem) ==>
              && r.Ok?
              && r.value.scanned <= |rem| && r.value.scanned <= MAX_SCAN_ROWS
              && r.value.visible == src.show(rem[..r.value.scanned])
              && (r.value.exhausted ==>
                    r.value.scanned == MAX_SCAN_ROWS && r.value.lastScanned == Some(rem[r.value.scanned - 1]))
              && (|r.value.visible| > limit || r.value.exhausted || r.value.scanned == |rem| < MAX_SCAN_ROWS)
  {
    var batchSize := BatchSize(limit);
    var scanned := 0;
    var visible: seq<Listing> := [];
    var scanCursor := cursor;
    var lastScanned: Option<Listing> := None;
    var exhausted := false;
    ghost var readable := Feeds(src, cursor, BatchSize(limit), rem);
    while true
      invariant 0 <= scanned < MAX_SCAN_ROWS && !exhausted && |visible| <= limit
      invariant readable ==> scanned <= |rem| && visible == src.show(rem[..scanned])
      invariant scanned == 0 ==> scanCursor == cursor
      invariant scanned > 0 ==> readable && scanned >= batchSize && scanCursor == src.text(rem[scanned - 1])
      decreases MAX_SCAN_ROWS - scanned
    {
      var fetchCount := Min(batchSize, MAX_SCAN_ROWS - scanned);
      var fetched := src.read(scanCursor, fetchCount);
      if fetched.Err? {
        return Err(MalformedCursor);
      }
      var batch := fetched.value;
      assert batch == Take(rem[scanned..], fetchCount) == rem[scanned..scanned + |batch|];
      if batch == [] {
        break;
      }
      lastScanned := Some(batch[|batch| - 1]);
      visible := visible + src.show(batch);
      scanned := scanned + |batch|;
      if |visible| > limit {
        break;
      }
      if |batch| < fetchCount {
        break;
      }
      if scanned >= MAX_SCAN_ROWS {
        exhausted := true;
        break;
      }
      scanCursor := src.text(batch[|batch| - 1]);
    }
    r := Ok(Scan(scanned, visible, exhausted, lastScanned));
  }

  /** The queries over one snapshot. */
  function SourceOf(snap: Snapshot, q: Query): Source {
    Source((cursor: string, n: nat) => ReadBehind(snap, q, cursor, n), (r: Listing) => Encode(r),
           (rows: seq<Listing>) => VisibleRows(snap, rows))
  }

  function ReadBehind(snap: Snapshot, q: Query, cursor: string, n: nat): Result<seq<Listing>, SearchError> {
    match Position(cursor)
    case Err(e) => Err(MalformedCursor)
    case Ok(at) => Ok(Fetch(snap, q, at, n))
  }

  lemma ReadsRest(snap: Snapshot, q: Query, at: Option<Cursor>, j: nat, n: nat)
    requires WellFormed(snap.rows)
    requires at.Some? ==> at.value.Keyed?
    requires j < |Remaining(snap, q, at)|
    ensures ReadBehind(snap, q, Encode(Remaining(snap, q, at)[j]), n) == Ok(Take(Remaining(snap, q, at)[j + 1..], n))
  {
    NextCursor(snap, q, at, j);
  }

  /** A row of the second part of a concatenation, and the rows behind it. */
  lemma InTail(first: seq<Listing>, rest: seq<Listing>, j: nat)
    requires |first| <= j < |first| + |rest|
    ensures (first + rest)[j] == rest[j - |first|]
    ensures (first + rest)[j + 1..] == rest[j - |first| + 1..]
  {
  }

  lemma AtSeam(first: seq<Listing>, rest: seq<Listing>)
    requires first != []
    ensures (first + rest)[|first| - 1] == first[|first| - 1] && (first + rest)[|first|..] == rest
  {
  }

  lemma LastOfBatch(snap: Snapshot, q: Query, at: Option<Cursor>, count: nat)
    requires WellFormed(snap.rows) && |Fetch(snap, q, at, count)| > 0
    ensures Fetch(snap, q, at, count)[|Fetch(snap, q, at, count)| - 1] in snap.rows
  {
    RemainingRows(snap, q, at);
    var rem := Remaining(snap, q, at);
    assert Fetch(snap, q, at, count)[|Fetch(snap, q, at, count)| - 1] in rem;
  }

  lemma ReadsBehindRow(snap: Snapshot, q: Query, r: Listing, n: nat)
    requires WellFormed(snap.rows) && r in snap.rows
    ensures ReadBehind(snap, q, Encode(r), n) == Ok(Take(Remaining(snap, q, Some(CursorOf(r))), n))
  {
    CursorRoundTrip(r);
  }

  /** Rows read on from behind the last row of a first batch, whatever predicate that batch was read with. */
  lemma ReadsOnFromBatch(snap: Snapshot, q: Query, first: seq<Listing>, rest: seq<Listing>, j: nat, n: nat)
    requires WellFormed(snap.rows) && first != [] && first[|first| - 1] in snap.rows
    requires rest == Remaining(snap, q, Some(CursorOf(first[|first| - 1])))
    requires |first| <= j + 1 && j < |first + rest|
    ensures ReadBehind(snap, q, Encode((first + rest)[j]), n) == Ok(Take((first + rest)[j + 1..], n))
  {
    var last := first[|first| - 1];
    if j + 1 == |first| {
      AtSeam(first, rest);
      ReadsBehindRow(snap, q, last, n);
    } else {
      InTail(first, rest, j);
      ReadsRest(snap, q, Some(CursorOf(last)), j - |first|, n);
    }
  }

  /** Behind a two-part cursor, too, the rows beyond the first batch are read on from one another. */
  lemma ReadsRestOfLegacy(snap: Snapshot, q: Query, at: Option<Cursor>, limit: nat, j: nat, n: nat)
    requires WellFormed(snap.rows) && at.Some? && at.value.Legacy?
    requires BatchSize(limit) <= j + 1 && j < |RowsAhead(snap, q, at, limit)|
    ensures ReadBehind(snap, q, Encode(RowsAhead(snap, q, at, limit)[j]), n)
         == Ok(Take(RowsAhead(snap, q, at, limit)[j + 1..], n))
  {
    var first := Fetch(snap, q, at, BatchSize(limit));
    LastOfBatch(snap, q, at, BatchSize(limit));
    ReadsOnFromBatch(snap, q, first, Remaining(snap, q, Some(CursorOf(first[|first| - 1]))), j, n);
  }

  lemma FirstBatch(snap: Snapshot, q: Query, at: Option<Cursor>, limit: nat)
    ensures Fetch(snap, q, at, BatchSize(limit)) == Take(RowsAhead(snap, q, at, limit), BatchSize(limit))
  {
    var first := Fetch(snap, q, at, BatchSize(limit));
    if at.Some? && at.value.Legacy? && |first| == BatchSize(limit) {
      var rest := Remaining(snap, q, Some(CursorOf(first[|first| - 1])));
      assert (first + rest)[..|first|] == first;
      assert rest == [] ==> first + rest == first;
    }
  }

  lemma SnapshotFeeds(snap: Snapshot, q: Query, cursor: string, limit: nat)
    requires WellFormed(snap.rows) && Position(cursor).Ok?
    ensures Feeds(SourceOf(snap, q), cursor, BatchSize(limit), RowsAhead(snap, q, Position(cursor).value, limit))
  {
    var src, at := SourceOf(snap, q), Position(cursor).value;
    var rem := RowsAhead(snap, q, at, limit);
    FirstBatch(snap, q, at, limit);
    forall j: nat, n: nat | BatchSize(limit) <= j + 1 && j < |rem|
      ensures src.read(src.text(rem[j]), n) == Ok(Take(rem[j + 1..], n))
    {
      if at.Some? && at.value.Legacy? {
        ReadsRestOfLegacy(snap, q, at, limit, j, n);
      } else {
        ReadsRest(snap, q, at, j, n);
      }
    }
    forall k: nat, m: nat | k <= m <= |rem| ensures src.show(rem[..m]) == src.show(rem[..k]) + src.show(rem[k..m]) {
      Halves(rem[..m], k);
      assert rem[..m][..k] == rem[..k] && rem[..m][k..] == rem[k..m];
      VisibleConcat(snap, rem[..k], rem[k..m]);
    }
  }

  /** One page over one snapshot. */
  method ScanPage(snap: Snapshot, q: Query, cursor: string, limit: nat) returns (r: Result<Page, SearchError>)
    requires WellFormed(snap.rows)
    requires limit >= 1
    ensures Position(cursor).Err? ==> r == Err(MalformedCursor)
    ensures Position(cursor).Ok? ==> r == Ok(PageOf(snap, q, Position(cursor).value, limit))
  {
    ghost var rem := [];
    if Position(cursor).Ok? {
      rem := RowsAhead(snap, q, Position(cursor).value, limit);
      SnapshotFeeds(snap, q, cursor, limit);
    } else {
      assert SourceOf(snap, q).read(cursor, 0) == Err(MalformedCursor);
    }
    var scanned := ScanRows(SourceOf(snap, q), cursor, limit, rem);
    match scanned
    case Err(e) => r := Err(e);
    case Ok(scan) =>
      ScanIsPage(snap, rem, limit, scan.scanned, scan.visible, scan.exhausted, scan.lastScanned);
      r := Ok(Finish(scan.visible, limit, scan.exhausted, scan.lastScanned));
  }

  /** The page request as the API serves it: expiry first, then the scan. */
  method SearchListings(table: ListingTable, q: Query, cursor: string, limitParam: Option<int>, now: string)
    returns (r: Result<Page, SearchError>)
    requires WellFormed(table.rows) && Plain(now)
    modifies table`rows
    ensures WellFormed(table.rows)
    ensures var limit := if limitParam.Some? then limitParam.value else 20;
            if !(1 <= limit <= 100) then r == Err(LimitOutOfRange) && table.rows == old(table.rows)
            else
              && table.rows == Expired(old(table.rows), now)
              && r == match Position(cursor)
                      case Err(e) => Err(MalformedCursor)
                      case Ok(at) => Ok(PageOf(Snapshot(table.rows, table.agents, table.shareCode), q, at, limit))
    ensures r.Ok? ==>
              && |r.value.results| <= (if limitParam.Some? then limitParam.value else 20)
              && forall x :: x in r.value.results ==>
                   && x in table.rows && x.state == Active && x.hold == 0
                   && (q.owner == "" || x.owner == q.owner)
                   && (q.freshness.Some? ==> x.freshness == q.freshness.value)
                   && q.filter(x.listingType, x.content) && !table.shareCode(x.content)
                   && (x.owner in table.agents ==> table.agents[x.owner].admin == InGoodStanding)
  {
    var limit := 20;
    if limitParam.Some? {
      limit := limitParam.value;
      if !(1 <= limit <= 100) {
        return Err(LimitOutOfRange);
      }
    }
    ExpiredWellFormed(table.rows, now);
    table.ExpireStale(now);
    var snap := Snapshot(table.rows, table.agents, table.shareCode);
    r := ScanPage(snap, q, cursor, limit);
    if r.Ok? {
      ResultsArePublic(snap, q, Position(cursor).value, limit);
    }
  }
}
