/** What a client that follows search cursors gets to see, on a still table and while rows expire. */
module ListingWalk {
  import opened Order
  import opened Wrappers
  import opened ListingModel
  import opened ListingSearch

  /** One page request: the table it reads and the page size it asks for. */
  datatype Call = Call(snap: Snapshot, limit: nat)

  ghost predicate Served(calls: seq<Call>) {
    forall c :: c in calls ==> WellFormed(c.snap.rows) && c.limit >= 1
  }

  /** The rows handed out so far, and whether the last page came without a cursor. */
  datatype Walked = Walked(rows: seq<Listing>, ended: bool)

  /** Follow the cursor from one call to the next. */
  function Walk(calls: seq<Call>, q: Query, cursor: string): Walked
    requires forall c :: c in calls ==> c.limit >= 1
  {
    if calls == [] || Position(cursor).Err? then Walked([], false)
    else
      var page := PageOf(calls[0].snap, q, Position(cursor).value, calls[0].limit);
      if page.next == "" then Walked(page.results, true)
      else
        var rest := Walk(calls[1..], q, page.next);
        Walked(page.results + rest.rows, rest.ended)
  }

  // ---------------------------------------------------------------- a page is a cut

  /** The page hands out the visible rows among the first j remaining ones and resumes behind them;
      without a cursor those are all, and with one the page is full or has read the whole budget. */
  ghost predicate Cuts(snap: Snapshot, rem: seq<Listing>, page: Page, limit: nat, j: nat) {
    && j <= |rem|
    && page.results == VisibleRows(snap, rem[..j])
    && (page.next == "" ==> j == |rem|)
    && (page.next != "" ==>
          && j > 0
          && Position(page.next) == Ok(Some(CursorOf(rem[j - 1])))
          && (|page.results| == limit || j == MAX_SCAN_ROWS))
  }

  lemma PageCut(snap: Snapshot, q: Query, at: Option<Cursor>, limit: nat) returns (j: nat)
    requires WellFormed(snap.rows) && limit >= 1
    requires at.Some? ==> at.value.Keyed?
    ensures Cuts(snap, Remaining(snap, q, at), PageOf(snap, q, at, limit), limit, j)
    ensures j > 0 ==> Remaining(snap, q, Some(CursorOf(Remaining(snap, q, at)[j - 1]))) == Remaining(snap, q, at)[j..]
  {
    var rem := Remaining(snap, q, at);
    KeyedPage(snap, q, at, limit);
    j := FirstCut(snap, rem, limit);
    if j > 0 {
      NextCursor(snap, q, at, j - 1);
      CutIsCut(snap, rem, limit, j);
    }
  }

  lemma KeyedPage(snap: Snapshot, q: Query, at: Option<Cursor>, limit: nat)
    requires limit >= 1 && (at.Some? ==> at.value.Keyed?)
    ensures PageOf(snap, q, at, limit) == PageFrom(snap, Remaining(snap, q, at), limit)
  {
  }

  lemma CutIsCut(snap: Snapshot, rem: seq<Listing>, limit: nat, j: nat)
    requires limit >= 1 && IsFirstCut(snap, rem, limit, j) && j > 0
    requires Position(Encode(rem[j - 1])) == Ok(Some(CursorOf(rem[j - 1])))
    ensures Cuts(snap, rem, PageFrom(snap, rem, limit), limit, j)
  {
  }

  ghost predicate IsFirstCut(snap: Snapshot, rem: seq<Listing>, limit: nat, j: nat)
    requires limit >= 1
  {
    var page := PageFrom(snap, rem, limit);
    && j <= |rem|
    && page.results == VisibleRows(snap, rem[..j])
    && (page.next == "" ==> j == |rem|)
    && (page.next != "" ==> j > 0 && page.next == Encode(rem[j - 1]))
    && (page.next != "" ==> |page.results| == limit || j == MAX_SCAN_ROWS)
  }

  lemma FirstCut(snap: Snapshot, rem: seq<Listing>, limit: nat) returns (j: nat)
    requires limit >= 1
    ensures IsFirstCut(snap, rem, limit, j)
  {
    var read := Read(rem);
    var shown := VisibleRows(snap, read);
    if |shown| > limit {
      j := SelectTake(r => Visible(snap, r), read, limit);
      assert read[..j] == rem[..j];
    } else {
      j := |read|;
      assert rem[..j] == read;
    }
  }

  /** Older than a cursor is older in time, or of the same time and of a smaller id than the row of the cursor's
      listing id, if there is one. */
  lemma OlderExactly(rows: seq<Listing>, c: Cursor, r: Listing)
    requires WellFormed(rows)
    ensures Older(rows, c, r) <==>
              || TextBefore(r.updatedAt, c.updatedAt)
              || (r.updatedAt == c.updatedAt && exists b :: b in rows && b.listingId == c.listingId && r.id < b.id)
  {
    if b :| b in rows && b.listingId == c.listingId {
      IdOfRow(rows, b);
      forall d | d in rows && d.listingId == c.listingId ensures d.id == b.id { IdOfRow(rows, d); }
    } else {
      NoIdOf(rows, c.listingId);
    }
  }

  lemma {:induction false} NoIdOf(rows: seq<Listing>, listingId: string)
    requires forall b :: b in rows ==> b.listingId != listingId
    ensures IdOf(rows, listingId) == None
  {
    if rows != [] {
      assert rows[0] in rows;
      NoIdOf(rows[1..], listingId);
    }
  }

  lemma BeyondCut(snap: Snapshot, rem: seq<Listing>, j: nat, r: Listing)
    requires Sorted(Before, rem) && j <= |rem| && r in rem && Visible(snap, r) && r !in VisibleRows(snap, rem[..j])
    ensures j < |rem|
    ensures forall x :: x in VisibleRows(snap, rem[..j]) ==> Before(x, r)
  {
    SelectBounds(x => Visible(snap, x), rem[..j]);
    assert forall i :: 0 <= i < j ==> rem[..j][i] == rem[i];
    var i :| 0 <= i < |rem| && rem[i] == r;
    forall x | x in VisibleRows(snap, rem[..j]) ensures Before(x, r) {
      assert x in rem[..j];
      var k :| 0 <= k < j && rem[k] == x;
    }
  }

  /** Behind a keyed cursor a page shows the first rows there are: each of its listings has a greater freshness
      rank than the cursor, or the same rank and is older; and a public listing of that kind which is not on the
      page comes after every listing on it, and the page has a cursor. */
  lemma PageShowsFirst(snap: Snapshot, q: Query, c: Cursor, limit: nat, r: Listing)
    requires WellFormed(snap.rows) && limit >= 1 && c.Keyed?
    ensures var page := PageOf(snap, q, Some(c), limit);
            var behind := Rank(r.freshness) > c.rank || (Rank(r.freshness) == c.rank && Older(snap.rows, c, r));
            && (r in page.results ==> behind)
            && (r in snap.rows && Matches(snap, q, r) && Visible(snap, r) && behind && r !in page.results ==>
                  page.next != "" && forall x :: x in page.results ==> Before(x, r))
  {
    var rem := Remaining(snap, q, Some(c));
    RemainingRows(snap, q, Some(c));
    var j := PageCut(snap, q, Some(c), limit);
    SelectBounds(x => Visible(snap, x), rem[..j]);
    if r in rem && Visible(snap, r) && r !in VisibleRows(snap, rem[..j]) {
      BeyondCut(snap, rem, j, r);
    }
  }

  // ---------------------------------------------------------------- still table

  /** On a table that does not change, a finished walk has handed out exactly the visible matching rows,
      each once and in page order, whatever page sizes were asked for. */
  lemma {:induction false} StillWalkIsExact(calls: seq<Call>, snap: Snapshot, q: Query, cursor: string)
    requires Served(calls)
    requires forall c :: c in calls ==> c.snap == snap
    requires Position(cursor).Ok? && !TwoPart(cursor)
    ensures var walk := Walk(calls, q, cursor);
            walk.ended ==> walk.rows == VisibleRows(snap, Remaining(snap, q, Position(cursor).value))
  {
    if calls != [] {
      var at := Position(cursor).value;
      assert calls[0] in calls;
      var rem := Remaining(snap, q, at);
      var j := PageCut(snap, q, at, calls[0].limit);
      var page := PageOf(snap, q, at, calls[0].limit);
      if page.next == "" {
        assert rem[..j] == rem;
      } else {
        StillWalkIsExact(calls[1..], snap, q, page.next);
        Halves(rem, j);
        VisibleConcat(snap, rem[..j], rem[j..]);
      }
    }
  }

  /** A two-part cursor of an older session is good for one page under its old predicate: the page hands out the
      visible rows of a prefix of what it is read from, every row of its first batch was strictly older than the
      cursor row, and its own cursor is a three-part one of a listed row, from which the walk goes on exactly. */
  lemma TwoPartPageLeadsOn(snap: Snapshot, q: Query, at: Option<Cursor>, limit: nat) returns (j: nat)
    requires WellFormed(snap.rows) && limit >= 1 && at.Some? && at.value.Legacy?
    ensures var rem, page := RowsAhead(snap, q, at, limit), PageOf(snap, q, at, limit);
            && j <= |rem| && page.results == VisibleRows(snap, rem[..j])
            && (forall i :: 0 <= i < |rem| ==> rem[i] in snap.rows && Matches(snap, q, rem[i]))
            && (forall i :: 0 <= i < |rem| && i < BatchSize(limit) ==> Older(snap.rows, at.value, rem[i]))
            && (page.next == "" ==> j == |rem|)
            && (page.next != "" ==> j > 0 && Position(page.next) == Ok(Some(CursorOf(rem[j - 1]))))
  {
    var rem := RowsAhead(snap, q, at, limit);
    j := FirstCut(snap, rem, limit);
    forall i | 0 <= i < |rem|
      ensures && rem[i] in snap.rows && Matches(snap, q, rem[i])
              && (i < BatchSize(limit) ==> Older(snap.rows, at.value, rem[i]))
    {
      AheadIsRow(snap, q, at, limit, i);
    }
    if j > 0 {
      CursorRoundTrip(rem[j - 1]);
    }
  }

  lemma RemainingAt(snap: Snapshot, q: Query, at: Option<Cursor>, i: nat)
    requires WellFormed(snap.rows) && i < |Remaining(snap, q, at)|
    ensures var r := Remaining(snap, q, at)[i];
            r in snap.rows && Matches(snap, q, r) && (at.Some? ==> After(snap.rows, at.value, r))
  {
    RemainingRows(snap, q, at);
    assert Remaining(snap, q, at)[i] in Remaining(snap, q, at);
  }

  lemma AheadIsRow(snap: Snapshot, q: Query, at: Option<Cursor>, limit: nat, i: nat)
    requires WellFormed(snap.rows) && at.Some? && at.value.Legacy? && i < |RowsAhead(snap, q, at, limit)|
    ensures var r := RowsAhead(snap, q, at, limit)[i];
            r in snap.rows && Matches(snap, q, r) && (i < BatchSize(limit) ==> Older(snap.rows, at.value, r))
  {
    var first := Fetch(snap, q, at, BatchSize(limit));
    if i < |first| {
      RemainingAt(snap, q, at, i);
    } else {
      RemainingAt(snap, q, Some(CursorOf(first[|first| - 1])), i - |first|);
    }
  }

  // ---------------------------------------------------------------- changing table

  /** How a listing may change while it is walked: not at all, or FRESH to STALE with a new updated_at. */
  predicate Evolves(before: Listing, after: Listing) {
    || after == before
    || (before.freshness == Fresh && after == before.(freshness := Stale, updatedAt := after.updatedAt))
  }

  /** Listings are never deleted and keep their ids; new ones may appear. */
  ghost predicate KeepsIds(before: seq<Listing>, after: seq<Listing>) {
    forall r :: r in before ==> IdOf(after, r.listingId) == Some(r.id)
  }

  /** Track t[i] is the state of one listing at call i: always matching and visible, changing only by expiry. */
  ghost predicate Tracks(calls: seq<Call>, q: Query, t: seq<Listing>) {
    && |t| == |calls|
    && (forall i :: 0 <= i < |t| ==>
          t[i] in calls[i].snap.rows && Matches(calls[i].snap, q, t[i]) && Visible(calls[i].snap, t[i]))
    && (forall i :: 0 <= i < |t| - 1 ==>
          Evolves(t[i], t[i + 1]) && KeepsIds(calls[i].snap.rows, calls[i + 1].snap.rows))
  }

  /** How often a listing occurs among handed-out rows. */
  function Times(listingId: string, s: seq<Listing>): nat {
    |Select((r: Listing) => r.listingId == listingId, s)|
  }

  lemma TimesConcat(listingId: string, a: seq<Listing>, b: seq<Listing>)
    ensures Times(listingId, a + b) == Times(listingId, a) + Times(listingId, b)
  {
    SelectConcat((r: Listing) => r.listingId == listingId, a, b);
  }

  lemma {:induction false} TimesIsCount(x: Listing, s: seq<Listing>)
    requires forall r :: r in s && r.listingId == x.listingId ==> r == x
    ensures Times(x.listingId, s) == multiset(s)[x]
  {
    if s != [] {
      assert s == [s[0]] + s[1..];
      TimesIsCount(x, s[1..]);
    }
  }

  lemma CountOne(rows: seq<Listing>, x: Listing)
    requires WellFormed(rows) && x in rows
    ensures multiset(rows)[x] == 1
    ensures forall r :: r in rows && r.listingId == x.listingId ==> r == x
  {
    var i :| 0 <= i < |rows| && rows[i] == x;
    assert rows == rows[..i] + [x] + rows[i + 1..];
    assert x !in rows[..i] && x !in rows[i + 1..];
  }

  /** Among all visible remaining rows a matching visible listing occurs once if it is in scope, else never. */
  lemma TimesRemaining(snap: Snapshot, q: Query, at: Option<Cursor>, x: Listing)
    requires WellFormed(snap.rows)
    requires at.Some? ==> at.value.Keyed?
    requires x in snap.rows && Matches(snap, q, x) && Visible(snap, x)
    ensures Times(x.listingId, VisibleRows(snap, Remaining(snap, q, at))) == if InScope(snap, q, at, x) then 1 else 0
  {
    var scope := r => InScope(snap, q, at, r);
    var shown := r => Visible(snap, r);
    var rem := Remaining(snap, q, at);
    CountOne(snap.rows, x);
    SelectCount(scope, snap.rows, x);
    SortMultiset(Before, Select(scope, snap.rows));
    SelectCount(shown, rem, x);
    RemainingRows(snap, q, at);
    SelectBounds(shown, rem);
    TimesIsCount(x, VisibleRows(snap, rem));
  }

  function AheadOf(snap: Snapshot, q: Query, at: Option<Cursor>, x: Listing): nat
    requires at.Some? ==> at.value.Keyed?
  {
    if InScope(snap, q, at, x) then 1 else 0
  }

  lemma CutPartition(snap: Snapshot, q: Query, at: Option<Cursor>, j: nat, x: Listing)
    requires WellFormed(snap.rows)
    requires at.Some? ==> at.value.Keyed?
    requires x in snap.rows && Matches(snap, q, x) && Visible(snap, x)
    requires j <= |Remaining(snap, q, at)|
    ensures Times(x.listingId, VisibleRows(snap, Remaining(snap, q, at)[..j]))
            + Times(x.listingId, VisibleRows(snap, Remaining(snap, q, at)[j..])) == AheadOf(snap, q, at, x)
  {
    var rem := Remaining(snap, q, at);
    TimesRemaining(snap, q, at, x);
    Halves(rem, j);
    VisibleConcat(snap, rem[..j], rem[j..]);
    TimesConcat(x.listingId, VisibleRows(snap, rem[..j]), VisibleRows(snap, rem[j..]));
  }

  /** A page either hands a listing out or leaves it behind its cursor, never both and never neither. */
  lemma PagePartition(snap: Snapshot, q: Query, at: Option<Cursor>, limit: nat, x: Listing) returns (b: Listing)
    requires WellFormed(snap.rows) && limit >= 1
    requires at.Some? ==> at.value.Keyed?
    requires x in snap.rows && Matches(snap, q, x) && Visible(snap, x)
    ensures var page := PageOf(snap, q, at, limit);
            if page.next == "" then Times(x.listingId, page.results) == AheadOf(snap, q, at, x)
            else
              && b in snap.rows
              && Position(page.next) == Ok(Some(CursorOf(b)))
              && Times(x.listingId, page.results) + AheadOf(snap, q, Some(CursorOf(b)), x) == AheadOf(snap, q, at, x)
  {
    var j := PageCut(snap, q, at, limit);
    CutPartition(snap, q, at, j, x);
    RemainingRows(snap, q, at);
    b := x;
    if j > 0 {
      b := Remaining(snap, q, at)[j - 1];
      assert b in Remaining(snap, q, at);
      TimesRemaining(snap, q, Some(CursorOf(b)), x);
    }
  }

  /** Expiry never carries a listing from behind the cursor to before it. */
  lemma ExpiryStaysAhead(before: Snapshot, after: Snapshot, q: Query, b: Listing, x: Listing, y: Listing)
    requires WellFormed(before.rows) && WellFormed(after.rows)
    requires b in before.rows && KeepsIds(before.rows, after.rows)
    requires Evolves(x, y) && Matches(before, q, x) && Matches(after, q, y)
    ensures InScope(before, q, Some(CursorOf(b)), x) ==> InScope(after, q, Some(CursorOf(b)), y)
    ensures x == y ==> InScope(before, q, Some(CursorOf(b)), x) == InScope(after, q, Some(CursorOf(b)), y)
  {
    IdOfRow(before.rows, b);
  }

  /** The tracked listing is rewritten by expiry at some call after the first. */
  ghost predicate ExpiresLater(t: seq<Listing>) {
    exists i :: 0 <= i < |t| && t[i] != t[0]
  }

  lemma TracksRest(calls: seq<Call>, q: Query, t: seq<Listing>)
    requires Served(calls) && |calls| > 1 && Tracks(calls, q, t)
    ensures Served(calls[1..]) && Tracks(calls[1..], q, t[1..])
  {
    var rest, u := calls[1..], t[1..];
    forall i | 0 <= i < |u| - 1
      ensures Evolves(u[i], u[i + 1]) && KeepsIds(rest[i].snap.rows, rest[i + 1].snap.rows)
    {
      assert u[i] == t[i + 1] && u[i + 1] == t[i + 2];
    }
  }

  lemma ExpiresOnce(t: seq<Listing>)
    requires |t| > 1 && forall i :: 0 <= i < |t| - 1 ==> Evolves(t[i], t[i + 1])
    ensures t[1] == t[0] && ExpiresLater(t[1..]) ==> ExpiresLater(t)
    ensures t[1] != t[0] ==> ExpiresLater(t) && !ExpiresLater(t[1..])
  {
    var u := t[1..];
    assert forall i :: 0 <= i < |u| ==> u[i] == t[i + 1];
    if t[1] != t[0] {
      StaleForGood(u, 0);
    } else if i :| 0 <= i < |u| && u[i] != u[0] {
      assert t[i + 1] != t[0];
    }
  }

  /** What a walk hands out is what its first page does and what the rest does. */
  lemma WalkSplits(calls: seq<Call>, q: Query, cursor: string, listingId: string)
    requires (forall c :: c in calls ==> c.limit >= 1) && calls != [] && Position(cursor).Ok?
    requires PageOf(calls[0].snap, q, Position(cursor).value, calls[0].limit).next != ""
    ensures var page := PageOf(calls[0].snap, q, Position(cursor).value, calls[0].limit);
            var walk, rest := Walk(calls, q, cursor), Walk(calls[1..], q, page.next);
            && walk.ended == rest.ended
            && Times(listingId, walk.rows) == Times(listingId, page.results) + Times(listingId, rest.rows)
  {
    var page := PageOf(calls[0].snap, q, Position(cursor).value, calls[0].limit);
    TimesConcat(listingId, page.results, Walk(calls[1..], q, page.next).rows);
  }

  lemma AheadStays(before: Snapshot, after: Snapshot, q: Query, b: Listing, x: Listing, y: Listing)
    requires WellFormed(before.rows) && WellFormed(after.rows)
    requires b in before.rows && KeepsIds(before.rows, after.rows)
    requires Evolves(x, y) && Matches(before, q, x) && Matches(after, q, y)
    ensures AheadOf(before, q, Some(CursorOf(b)), x) <= AheadOf(after, q, Some(CursorOf(b)), y)
    ensures x == y ==> AheadOf(before, q, Some(CursorOf(b)), x) == AheadOf(after, q, Some(CursorOf(b)), y)
  {
    ExpiryStaysAhead(before, after, q, b, x, y);
  }

  ghost predicate Counted(calls: seq<Call>, q: Query, cursor: string, t: seq<Listing>)
    requires Served(calls) && calls != [] && t != []
    requires Position(cursor).Ok? && !TwoPart(cursor)
  {
    var walk := Walk(calls, q, cursor);
    var ahead := AheadOf(calls[0].snap, q, Position(cursor).value, t[0]);
    walk.ended ==> ahead <= Times(t[0].listingId, walk.rows) <= ahead + if ExpiresLater(t) then 1 else 0
  }

  /** One page in front of a walk that counts right. */
  lemma OneMorePage(calls: seq<Call>, q: Query, cursor: string, t: seq<Listing>, b: Listing)
    requires Served(calls) && |calls| > 1 && Tracks(calls, q, t) && Served(calls[1..]) && Tracks(calls[1..], q, t[1..])
    requires Position(cursor).Ok? && !TwoPart(cursor)
    requires var page := PageOf(calls[0].snap, q, Position(cursor).value, calls[0].limit);
             && page.next != "" && Position(page.next) == Ok(Some(CursorOf(b))) && b in calls[0].snap.rows
             && (Times(t[0].listingId, page.results) + AheadOf(calls[0].snap, q, Some(CursorOf(b)), t[0])
                 == AheadOf(calls[0].snap, q, Position(cursor).value, t[0]))
             && Counted(calls[1..], q, page.next, t[1..])
    ensures Counted(calls, q, cursor, t)
  {
    assert calls[0] in calls && calls[1] in calls;
    ExpiresOnce(t);
    AheadStays(calls[0].snap, calls[1].snap, q, b, t[0], t[1]);
    WalkSplits(calls, q, cursor, t[0].listingId);
  }

  /** From any cursor: the rest of a finished walk hands a listing out at least once if the cursor is still
      before it, and at most once more than that, the extra time only if it expired on the way. */
  lemma {:induction false} WalkCounts(calls: seq<Call>, q: Query, cursor: string, t: seq<Listing>)
    requires Served(calls) && calls != [] && Tracks(calls, q, t)
    requires Position(cursor).Ok? && !TwoPart(cursor)
    ensures Counted(calls, q, cursor, t)
    decreases |calls|
  {
    assert calls[0] in calls;
    var b := PagePartition(calls[0].snap, q, Position(cursor).value, calls[0].limit, t[0]);
    var page := PageOf(calls[0].snap, q, Position(cursor).value, calls[0].limit);
    if page.next != "" && |calls| > 1 {
      TracksRest(calls, q, t);
      WalkCounts(calls[1..], q, page.next, t[1..]);
      OneMorePage(calls, q, cursor, t, b);
    }
  }

  lemma {:induction false} StaleForGood(t: seq<Listing>, k: nat)
    requires k < |t| && t[k].freshness == Stale
    requires forall i :: 0 <= i < |t| - 1 ==> Evolves(t[i], t[i + 1])
    ensures forall i :: k <= i < |t| ==> t[i] == t[k]
    decreases |t| - k
  {
    if k + 1 < |t| {
      StaleForGood(t, k + 1);
    }
  }

  /** Whatever other writers do meanwhile, a finished walk from the start hands out a listing that stays
      matching and visible at least once and at most twice, and exactly once unless it expired mid-walk. */
  lemma WalkNeverLosesRow(calls: seq<Call>, q: Query, t: seq<Listing>)
    requires Served(calls) && calls != [] && Tracks(calls, q, t)
    ensures var walk := Walk(calls, q, "");
            walk.ended ==> 1 <= Times(t[0].listingId, walk.rows) <= if ExpiresLater(t) then 2 else 1
  {
    WalkCounts(calls, q, "", t);
  }

  // ---------------------------------------------------------------- expiry before every page

  /** When a page is requested and how large it may be. */
  datatype Request = Request(now: string, limit: nat)

  ghost predicate Reasonable(plan: seq<Request>) {
    forall p :: p in plan ==> Plain(p.now) && p.limit >= 1
  }

  function ExpiredSnapshot(snap: Snapshot, now: string): Snapshot {
    snap.(rows := Expired(snap.rows, now))
  }

  /** The calls of a walk during which nothing but the expiry that opens every request writes. */
  function ExpiringCalls(snap: Snapshot, plan: seq<Request>): seq<Call>
    decreases |plan|
  {
    if plan == [] then []
    else
      var s := ExpiredSnapshot(snap, plan[0].now);
      [Call(s, plan[0].limit)] + ExpiringCalls(s, plan[1..])
  }

  /** The successive states of one listing under the same requests. */
  function Track(x: Listing, plan: seq<Request>): seq<Listing>
    decreases |plan|
  {
    if plan == [] then [] else var y := ExpireRow(x, plan[0].now); [y] + Track(y, plan[1..])
  }

  lemma {:induction false} ExpiredIdOf(rows: seq<Listing>, now: string, listingId: string)
    ensures IdOf(Expired(rows, now), listingId) == IdOf(rows, listingId)
  {
    if rows != [] {
      assert Expired(rows, now)[1..] == Expired(rows[1..], now);
      ExpiredIdOf(rows[1..], now, listingId);
    }
  }

  lemma ExpiredKeepsIds(rows: seq<Listing>, now: string)
    requires WellFormed(rows)
    ensures KeepsIds(rows, Expired(rows, now))
  {
    forall r | r in rows ensures IdOf(Expired(rows, now), r.listingId) == Some(r.id) {
      IdOfRow(rows, r);
      ExpiredIdOf(rows, now, r.listingId);
    }
  }

  lemma TracksPrepend(call: Call, calls: seq<Call>, q: Query, y: Listing, t: seq<Listing>)
    requires Tracks(calls, q, t)
    requires y in call.snap.rows && Matches(call.snap, q, y) && Visible(call.snap, y)
    requires calls != [] ==> Evolves(y, t[0]) && KeepsIds(call.snap.rows, calls[0].snap.rows)
    ensures Tracks([call] + calls, q, [y] + t)
  {
    var cs, u := [call] + calls, [y] + t;
    forall i | 0 <= i < |u| - 1 ensures Evolves(u[i], u[i + 1]) && KeepsIds(cs[i].snap.rows, cs[i + 1].snap.rows) {
      if i > 0 {
        assert u[i] == t[i - 1] && cs[i] == calls[i - 1];
      }
    }
  }

  lemma {:induction false} ExpiringServed(snap: Snapshot, plan: seq<Request>)
    requires WellFormed(snap.rows) && Reasonable(plan)
    ensures Served(ExpiringCalls(snap, plan)) && |ExpiringCalls(snap, plan)| == |plan|
    decreases |plan|
  {
    if plan != [] {
      assert plan[0] in plan;
      ExpiredWellFormed(snap.rows, plan[0].now);
      ExpiringServed(ExpiredSnapshot(snap, plan[0].now), plan[1..]);
    }
  }

  /** Nothing but expiry touches the table, so every listing is tracked by what expiry makes of it. */
  lemma {:induction false} ExpiringWalk(snap: Snapshot, q: Query, plan: seq<Request>, x: Listing)
    requires WellFormed(snap.rows) && Reasonable(plan)
    requires q.freshness.None? && x in snap.rows && Matches(snap, q, x) && Visible(snap, x)
    ensures Tracks(ExpiringCalls(snap, plan), q, Track(x, plan))
    decreases |plan|
  {
    if plan != [] {
      assert plan[0] in plan;
      var s, y := ExpiredSnapshot(snap, plan[0].now), ExpireRow(x, plan[0].now);
      ExpiredWellFormed(snap.rows, plan[0].now);
      var i :| 0 <= i < |snap.rows| && snap.rows[i] == x;
      assert s.rows[i] == y;
      ExpiringWalk(s, q, plan[1..], y);
      ExpiringServed(s, plan[1..]);
      if |plan| > 1 {
        ExpiredKeepsIds(s.rows, plan[1].now);
      }
      TracksPrepend(Call(s, plan[0].limit), ExpiringCalls(s, plan[1..]), q, y, Track(y, plan[1..]));
    }
  }

  // ---------------------------------------------------------------- termination

  /** How many more pages a row can keep the walk busy: one while it may still expire, one while it is ahead. */
  function Weight(all: seq<Listing>, at: Option<Cursor>, r: Listing): nat
    requires at.Some? ==> at.value.Keyed?
  {
    (if r.freshness == Fresh then 1 else 0) + (if at.Some? && !After(all, at.value, r) then 0 else 1)
  }

  function Potential(all: seq<Listing>, at: Option<Cursor>, s: seq<Listing>): nat
    requires at.Some? ==> at.value.Keyed?
  {
    if s == [] then 0 else Weight(all, at, s[0]) + Potential(all, at, s[1..])
  }

  lemma {:induction false} PotentialBound(all: seq<Listing>, at: Option<Cursor>, s: seq<Listing>)
    requires at.Some? ==> at.value.Keyed?
    ensures Potential(all, at, s) <= 2 * |s|
  {
    if s != [] {
      PotentialBound(all, at, s[1..]);
    }
  }

  lemma {:induction false} PotentialDrops(all: seq<Listing>, at: Option<Cursor>, s: seq<Listing>,
                                          all': seq<Listing>, at': Option<Cursor>, s': seq<Listing>)
    requires (at.Some? ==> at.value.Keyed?) && (at'.Some? ==> at'.value.Keyed?)
    requires |s'| == |s| && forall i :: 0 <= i < |s| ==> Weight(all', at', s'[i]) <= Weight(all, at, s[i])
    ensures Potential(all', at', s') <= Potential(all, at, s)
    ensures (exists i :: 0 <= i < |s| && Weight(all', at', s'[i]) < Weight(all, at, s[i])) ==>
              Potential(all', at', s') < Potential(all, at, s)
  {
    if s != [] {
      PotentialDrops(all, at, s[1..], all', at', s'[1..]);
      if i :| 0 < i < |s| && Weight(all', at', s'[i]) < Weight(all, at, s[i]) {
        assert s'[1..][i - 1] == s'[i] && s[1..][i - 1] == s[i];
      }
    }
  }

  lemma ExpiryDrops(rows: seq<Listing>, at: Option<Cursor>, now: string)
    requires at.Some? ==> at.value.Keyed?
    ensures Potential(Expired(rows, now), at, Expired(rows, now)) <= Potential(rows, at, rows)
  {
    if at.Some? {
      ExpiredIdOf(rows, now, at.value.listingId);
    }
    PotentialDrops(rows, at, rows, Expired(rows, now), at, Expired(rows, now));
  }

  lemma PageDrops(snap: Snapshot, q: Query, at: Option<Cursor>, j: nat)
    requires WellFormed(snap.rows)
    requires at.Some? ==> at.value.Keyed?
    requires j < |Remaining(snap, q, at)|
    ensures Potential(snap.rows, Some(CursorOf(Remaining(snap, q, at)[j])), snap.rows)
            < Potential(snap.rows, at, snap.rows)
  {
    var rows, b := snap.rows, Remaining(snap, q, at)[j];
    RemainingRows(snap, q, at);
    assert b in Remaining(snap, q, at);
    var next := Some(CursorOf(b));
    forall r | r in rows ensures Weight(rows, next, r) <= Weight(rows, at, r) {
      AfterRow(rows, b, r);
      if Before(b, r) && at.Some? {
        AfterUpward(rows, at.value, b, r);
      }
    }
    AfterRow(rows, b, b);
    assert !Before(b, b) by { TextStrictTotal(); }
    var i :| 0 <= i < |rows| && rows[i] == b;
    assert Weight(rows, next, rows[i]) < Weight(rows, at, rows[i]);
    PotentialDrops(rows, at, rows, rows, next, rows);
  }

  lemma PageUsesPotential(snap: Snapshot, q: Query, at: Option<Cursor>, limit: nat)
    requires WellFormed(snap.rows) && limit >= 1
    requires at.Some? ==> at.value.Keyed?
    ensures var page := PageOf(snap, q, at, limit);
            page.next != "" ==>
              && Position(page.next).Ok? && !TwoPart(page.next)
              && Potential(snap.rows, Position(page.next).value, snap.rows) < Potential(snap.rows, at, snap.rows)
  {
    var j := PageCut(snap, q, at, limit);
    if PageOf(snap, q, at, limit).next != "" {
      PageDrops(snap, q, at, j - 1);
    }
  }

  lemma ExpiringHead(snap: Snapshot, plan: seq<Request>)
    requires plan != []
    ensures var s := ExpiredSnapshot(snap, plan[0].now);
            && ExpiringCalls(snap, plan)[0] == Call(s, plan[0].limit)
            && ExpiringCalls(snap, plan)[1..] == ExpiringCalls(s, plan[1..])
  {
  }

  /** Every page that comes with a cursor uses up potential, so enough requests finish the walk. */
  lemma {:induction false} ExpiringWalkEnds(snap: Snapshot, q: Query, plan: seq<Request>, cursor: string)
    requires WellFormed(snap.rows) && Reasonable(plan)
    requires Position(cursor).Ok? && !TwoPart(cursor)
    requires |plan| > Potential(snap.rows, Position(cursor).value, snap.rows)
    ensures Served(ExpiringCalls(snap, plan))
    ensures Walk(ExpiringCalls(snap, plan), q, cursor).ended
    decreases |plan|
  {
    var at, s := Position(cursor).value, ExpiredSnapshot(snap, plan[0].now);
    assert plan[0] in plan;
    ExpiringServed(snap, plan);
    ExpiringHead(snap, plan);
    ExpiredWellFormed(snap.rows, plan[0].now);
    ExpiryDrops(snap.rows, at, plan[0].now);
    PageUsesPotential(s, q, at, plan[0].limit);
    var page := PageOf(s, q, at, plan[0].limit);
    if page.next != "" {
      ExpiringWalkEnds(s, q, plan[1..], page.next);
    }
  }

  /** Lazy expiry never loses a row: with no freshness filter, 2n + 1 requests at any times and page sizes
      finish a walk over n listings, and every matching visible listing is handed out once or twice, twice
      only if it turned STALE between two of the requests. */
  lemma LazyExpiryNeverLosesRow(snap: Snapshot, q: Query, plan: seq<Request>, x: Listing)
    requires WellFormed(snap.rows) && Reasonable(plan)
    requires |plan| > 2 * |snap.rows|
    requires q.freshness.None? && x in snap.rows && Matches(snap, q, x) && Visible(snap, x)
    ensures Served(ExpiringCalls(snap, plan))
    ensures var walk := Walk(ExpiringCalls(snap, plan), q, "");
            && walk.ended
            && 1 <= Times(x.listingId, walk.rows) <= if ExpiresLater(Track(x, plan)) then 2 else 1
  {
    PotentialBound(snap.rows, None, snap.rows);
    ExpiringWalkEnds(snap, q, plan, "");
    ExpiringServed(snap, plan);
    ExpiringWalk(snap, q, plan, x);
    WalkNeverLosesRow(ExpiringCalls(snap, plan), q, Track(x, plan));
  }

  /** While nothing expires, the same number of requests hands out exactly the visible matching listings,
      each once, in page order. */
  lemma QuietWalkIsExact(snap: Snapshot, q: Query, plan: seq<Request>)
    requires WellFormed(snap.rows) && Reasonable(plan)
    requires |plan| > 2 * |snap.rows|
    requires forall p :: p in plan ==> Expired(snap.rows, p.now) == snap.rows
    ensures Served(ExpiringCalls(snap, plan))
    ensures Walk(ExpiringCalls(snap, plan), q, "") == Walked(VisibleRows(snap, Remaining(snap, q, None)), true)
  {
    PotentialBound(snap.rows, None, snap.rows);
    ExpiringWalkEnds(snap, q, plan, "");
    QuietCalls(snap, plan);
    StillWalkIsExact(ExpiringCalls(snap, plan), snap, q, "");
  }

  lemma PublicRows(snap: Snapshot, q: Query, r: Listing)
    requires WellFormed(snap.rows)
    ensures r in VisibleRows(snap, Remaining(snap, q, None)) <==>
            && r in snap.rows && r.state == Active && r.hold == 0
            && (q.owner == "" || r.owner == q.owner)
            && (q.freshness.Some? ==> r.freshness == q.freshness.value)
            && q.filter(r.listingType, r.content) && !snap.shareCode(r.content)
            && (r.owner in snap.agents ==> snap.agents[r.owner].admin == InGoodStanding)
  {
    RemainingRows(snap, q, None);
    SelectBounds(x => Visible(snap, x), Remaining(snap, q, None));
  }

  lemma PublicOrder(snap: Snapshot, q: Query, i: nat, j: nat)
    requires WellFormed(snap.rows) && i < j < |VisibleRows(snap, Remaining(snap, q, None))|
    ensures var a, b := VisibleRows(snap, Remaining(snap, q, None))[i], VisibleRows(snap, Remaining(snap, q, None))[j];
            || (a.freshness == Fresh && b.freshness == Stale)
            || (&& a.freshness == b.freshness
                && (TextBefore(b.updatedAt, a.updatedAt) || (a.updatedAt == b.updatedAt && a.id > b.id)))
  {
    RemainingRows(snap, q, None);
    SelectSorted(Before, x => Visible(snap, x), Remaining(snap, q, None));
  }

  /** Such a walk hands out exactly the public listings: a row of the table that is ACTIVE without a hold, of the
      owner and freshness asked for, accepted by the filter, free of share codes, and of an owner that is neither
      suspended nor rejected. FRESH ones come first, then the most recently updated, then the greatest id. */
  lemma QuietWalkIsPublicList(snap: Snapshot, q: Query, plan: seq<Request>)
    requires WellFormed(snap.rows) && Reasonable(plan)
    requires |plan| > 2 * |snap.rows|
    requires forall p :: p in plan ==> Expired(snap.rows, p.now) == snap.rows
    ensures Served(ExpiringCalls(snap, plan))
    ensures var rows := Walk(ExpiringCalls(snap, plan), q, "").rows;
            && (forall r :: r in rows <==>
                  && r in snap.rows && r.state == Active && r.hold == 0
                  && (q.owner == "" || r.owner == q.owner)
                  && (q.freshness.Some? ==> r.freshness == q.freshness.value)
                  && q.filter(r.listingType, r.content) && !snap.shareCode(r.content)
                  && (r.owner in snap.agents ==> snap.agents[r.owner].admin == InGoodStanding))
            && (forall i, j :: 0 <= i < j < |rows| ==>
                  || (rows[i].freshness == Fresh && rows[j].freshness == Stale)
                  || (&& rows[i].freshness == rows[j].freshness
                      && (|| TextBefore(rows[j].updatedAt, rows[i].updatedAt)
                          || (rows[i].updatedAt == rows[j].updatedAt && rows[i].id > rows[j].id))))
  {
    QuietWalkIsExact(snap, q, plan);
    forall r { PublicRows(snap, q, r); }
    forall i: nat, j: nat | i < j < |VisibleRows(snap, Remaining(snap, q, None))| { PublicOrder(snap, q, i, j); }
  }

  lemma {:induction false} QuietCalls(snap: Snapshot, plan: seq<Request>)
    requires forall p :: p in plan ==> Expired(snap.rows, p.now) == snap.rows
    ensures forall c :: c in ExpiringCalls(snap, plan) ==> c.snap == snap
    decreases |plan|
  {
    if plan != [] {
      assert plan[0] in plan;
      QuietCalls(snap, plan[1..]);
    }
  }
}
