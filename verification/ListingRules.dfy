/** When a publish, a withdrawal and a reinstatement succeed, what they leave, and what search makes of it. */
module ListingRules {
  import opened Wrappers
  import opened ListingModel
  import opened ListingLifecycle
  import ListingSearch

  ghost predicate DistinctListings(rows: seq<Listing>) {
    forall i, j :: 0 <= i < j < |rows| ==> rows[i].listingId != rows[j].listingId
  }

  // ---------------------------------------------------------------- the operations

  /** A withdrawal succeeds exactly if there is a listing of that id and it belongs to the merchant; then that
      listing is WITHDRAWN, with everything else but updated_at as it was, and no other row changes. */
  lemma WithdrawalExactly(rows: seq<Listing>, listingId: string, merchant: string, now: string)
    requires DistinctListings(rows)
    ensures var (after, result) := Withdraw(rows, listingId, merchant, now);
            && (result.Ok? <==> exists r :: r in rows && r.listingId == listingId && r.merchant == merchant)
            && |after| == |rows|
            && forall i :: 0 <= i < |rows| ==>
                 after[i] == if result.Ok? && rows[i].listingId == listingId && rows[i].state != Withdrawn
                             then rows[i].(state := Withdrawn, updatedAt := now) else rows[i]
  {
    var found := FindListing(rows, listingId);
    if found.Some? {
      assert forall i :: 0 <= i < |rows| && rows[i].listingId == listingId ==> i == found.value;
    }
  }

  /** The owner is there, neither suspended nor rejected, and bound to this merchant or to none. */
  predicate OwnerIsClear(agents: map<string, Agent>, owner: string, merchant: string) {
    && owner in agents && agents[owner].admin == InGoodStanding
    && (agents[owner].merchant == "" || agents[owner].merchant == merchant)
  }

  predicate MayReinstate(r: Listing, agents: map<string, Agent>, listingId: string, actor: Actor, merchant: string,
                         hasAccount: bool, capacity: bool)
  {
    && r.listingId == listingId && r.merchant == merchant && r.state == Suspended
    && r.hold != 2 && (r.hold == 1 ==> actor == Admin)
    && OwnerIsClear(agents, r.owner, merchant) && (hasAccount ==> capacity)
  }

  /** A reinstatement succeeds exactly for a SUSPENDED listing of the merchant that is in no quarantine, is under a
      governance hold only for an administrator, has a clear owner and finds capacity; then it is ACTIVE without a
      hold, with everything else but updated_at as it was, and no other row changes. */
  lemma ReinstatementExactly(rows: seq<Listing>, agents: map<string, Agent>, listingId: string, actor: Actor,
                             merchant: string, hasAccount: bool, capacity: bool, now: string)
    requires DistinctListings(rows) && Holds(State(rows, agents))
    ensures var (after, result) := Reinstate(rows, agents, listingId, actor, merchant, hasAccount, capacity, now);
            && (result.Ok? <==>
                  exists r :: r in rows && MayReinstate(r, agents, listingId, actor, merchant, hasAccount, capacity))
            && |after| == |rows|
            && forall i :: 0 <= i < |rows| ==>
                 after[i] == if result.Ok? && rows[i].listingId == listingId
                             then rows[i].(state := Active, hold := 0, updatedAt := now) else rows[i]
  {
    var found := FindListing(rows, listingId);
    if found.Some? {
      assert rows[found.value] in rows;
      assert forall i :: 0 <= i < |rows| && rows[i].listingId == listingId ==> i == found.value;
    }
    forall r | r in rows && r.listingId == listingId ensures found.Some? && r == rows[found.value] {
      var i :| 0 <= i < |rows| && rows[i] == r;
    }
  }

  /** What a refused reinstatement is told: that the listing or its owner is not there, that the capacity is used
      up, which is found out last, or else that it is not permitted. */
  lemma ReinstatementRefusals(rows: seq<Listing>, agents: map<string, Agent>, listingId: string, actor: Actor,
                              merchant: string, hasAccount: bool, capacity: bool, now: string, i: nat)
    requires DistinctListings(rows)
    requires i < |rows| && rows[i].listingId == listingId
    ensures var r, result := rows[i], Reinstate(rows, agents, listingId, actor, merchant, hasAccount, capacity, now).1;
            && (result == Err(NotFoundError) <==>
                  && r.owner !in agents && r.merchant == merchant && r.state == Suspended
                  && r.hold != 2 && (r.hold == 1 ==> actor == Admin))
            && (result == Err(CapacityExceeded) <==>
                  && MayReinstate(r, agents, listingId, actor, merchant, false, false) && hasAccount && !capacity)
            && (result.Err? ==> result.error in {NotFoundError, CapacityExceeded, PermissionDenied})
  {
    assert FindListing(rows, listingId) == Some(i);
  }

  /** The row that a payload with these keys would refresh. */
  predicate IsOfKey(r: Listing, p: Payload) {
    && r.owner == p.owner && r.listingType == p.listingType
    && match p.listingType
       case Product => p.sourceRef.Some? && r.sourceRef == p.sourceRef
       case Capability => p.publisherKey.Some? && r.publisherKey == p.publisherKey
  }

  lemma OfKeyIsFound(rows: seq<Listing>, p: Payload, i: nat)
    requires Keyed(rows) && Contract(p) && i < |rows|
    ensures IsOfKey(rows[i], p) <==> FindPublished(rows, p) == Some(i)
  {
    assert KeyShaped(rows[i]);
    if IsOfKey(rows[i], p) {
      FoundIsOnly(rows, p, i);
    }
  }

  /** A validated publish succeeds exactly if its owner is clear, no row of its key is under a governance hold, and
      a runtime finds capacity; a refused one changes nothing. */
  lemma PublishExactly(rows: seq<Listing>, agents: map<string, Agent>, p: Payload, actor: Actor, capacity: bool,
                       digest: string, listingId: string, now: string)
    requires Keyed(rows) && Contract(p) && DistinctListings(rows)
    requires forall i :: 0 <= i < |rows| ==> rows[i].listingId != listingId
    ensures var (after, result) := Publish(rows, agents, p, actor, capacity, digest, listingId, now);
            && (result.Ok? <==>
                  && OwnerIsClear(agents, p.owner, p.merchant)
                  && (forall i :: 0 <= i < |rows| && IsOfKey(rows[i], p) ==> rows[i].hold != 1)
                  && (actor == Runtime ==> capacity))
            && (result.Err? ==> after == rows)
  {
    var found := FindPublished(rows, p);
    PublishForm(rows, agents, p, actor, capacity, digest, listingId, now);
    forall i | 0 <= i < |rows| ensures IsOfKey(rows[i], p) <==> found == Some(i) {
      OfKeyIsFound(rows, p, i);
    }
    if UpsertKey(p).Some? {
      ValidatedPublishFindsItsRow(rows, p, digest, listingId, now);
    }
    assert !ViolatesUnique(rows, NewRow(rows, p, digest, listingId, now), None) || found.Some?;
    if found.Some? {
      assert !ViolatesUnique(rows, Refreshed(rows[found.value], p, digest, now), found);
    }
  }

  /** What a refused publish is told: that the owner is not there, that a runtime finds no capacity, which comes
      after the hold of the row it would refresh, or else that it is not permitted. */
  lemma PublishRefusals(rows: seq<Listing>, agents: map<string, Agent>, p: Payload, actor: Actor, capacity: bool,
                        digest: string, listingId: string, now: string)
    requires Keyed(rows) && Contract(p) && DistinctListings(rows)
    requires forall i :: 0 <= i < |rows| ==> rows[i].listingId != listingId
    ensures var result := Publish(rows, agents, p, actor, capacity, digest, listingId, now).1;
            && (result == Err(NotFoundError) <==> p.owner !in agents)
            && (result == Err(CapacityExceeded) <==>
                  && OwnerIsClear(agents, p.owner, p.merchant) && actor == Runtime && !capacity
                  && forall i :: 0 <= i < |rows| && IsOfKey(rows[i], p) ==> rows[i].hold != 1)
            && (result.Err? ==> result.error in {NotFoundError, CapacityExceeded, PermissionDenied})
  {
    forall i | 0 <= i < |rows| ensures IsOfKey(rows[i], p) <==> FindPublished(rows, p) == Some(i) {
      OfKeyIsFound(rows, p, i);
    }
    PublishForm(rows, agents, p, actor, capacity, digest, listingId, now);
    if Decide(rows, agents, p, actor, capacity).Ok? {
      PublishExactly(rows, agents, p, actor, capacity, digest, listingId, now);
    }
  }

  // ---------------------------------------------------------------- ids stay unique

  ghost predicate PlainRun(run: seq<Event>) {
    forall i :: 0 <= i < |run| ==>
      match run[i]
      case PublishEvent(_, _, _, _, listingId, now) => Plain(listingId) && Plain(now)
      case WithdrawEvent(_, _, now) => Plain(now)
      case ReinstateEvent(_, _, _, _, _, now) => Plain(now)
      case ExpireEvent(now) => Plain(now)
      case ChangeAgent(_, _, now) => Plain(now)
  }

  lemma {:induction false} NextIdIsGreater(rows: seq<Listing>)
    ensures forall i :: 0 <= i < |rows| ==> rows[i].id < NextId(rows)
  {
    if rows != [] {
      NextIdIsGreater(rows[..|rows| - 1]);
      assert forall i :: 0 <= i < |rows| - 1 ==> rows[i] == rows[..|rows| - 1][i];
    }
  }

  /** Rows that keep their ids, with plain times, and perhaps one new row keep the table well formed. */
  lemma RewriteWellFormed(rows: seq<Listing>, after: seq<Listing>)
    requires WellFormed(rows) && |after| == |rows|
    requires forall i :: 0 <= i < |rows| ==>
               after[i].id == rows[i].id && after[i].listingId == rows[i].listingId && Plain(after[i].updatedAt)
    ensures WellFormed(after)
  {
    forall r | r in after ensures Plain(r.listingId) && Plain(r.updatedAt) {
      var i :| 0 <= i < |after| && after[i] == r;
      assert rows[i] in rows;
    }
  }

  lemma AppendWellFormed(rows: seq<Listing>, row: Listing)
    requires WellFormed(rows) && Plain(row.listingId) && Plain(row.updatedAt) && row.id == NextId(rows)
    requires forall i :: 0 <= i < |rows| ==> rows[i].listingId != row.listingId
    ensures WellFormed(rows + [row])
  {
    NextIdIsGreater(rows);
  }

  lemma PublishWellFormed(s: State, e: Event)
    requires WellFormed(s.rows) && Holds(s) && e.PublishEvent? && Plain(e.listingId) && Plain(e.now)
    ensures WellFormed(Next(s, e).rows)
  {
    PublishForm(s.rows, s.agents, e.p, e.actor, e.capacity, e.digest, e.listingId, e.now);
    var after, found := Next(s, e).rows, FindPublished(s.rows, e.p);
    if |after| > |s.rows| {
      var row := NewRow(s.rows, e.p, e.digest, e.listingId, e.now);
      assert !ViolatesUnique(s.rows, row, None);
      AppendWellFormed(s.rows, row);
    } else {
      forall i | 0 <= i < |s.rows|
        ensures after[i].id == s.rows[i].id && after[i].listingId == s.rows[i].listingId && Plain(after[i].updatedAt)
      {
        assert s.rows[i] in s.rows;
      }
      RewriteWellFormed(s.rows, after);
    }
  }

  lemma NextWellFormed(s: State, run: seq<Event>, n: nat)
    requires n < |run| && PlainRun(run) && WellFormed(s.rows) && Holds(s)
    ensures WellFormed(Next(s, run[n]).rows)
  {
    var e := run[n];
    if e.PublishEvent? {
      PublishWellFormed(s, e);
    } else {
      var after := Next(s, e).rows;
      forall i | 0 <= i < |s.rows|
        ensures after[i].id == s.rows[i].id && after[i].listingId == s.rows[i].listingId && Plain(after[i].updatedAt)
      {
        assert s.rows[i] in s.rows;
      }
      RewriteWellFormed(s.rows, after);
    }
  }

  // ---------------------------------------------------------------- withdrawn and out of search

  /** A publish of the key of this row. */
  predicate Republishes(e: Event, r: Listing) {
    && e.PublishEvent? && e.p.owner == r.owner && e.p.listingType == r.listingType
    && UpsertKey(e.p).Some? && (r.sourceRef == UpsertKey(e.p) || r.publisherKey == UpsertKey(e.p))
  }

  /** The row as it was withdrawn, but for the columns of its freshness. */
  ghost predicate StillWithdrawn(a: Listing, b: Listing) {
    b == a.(freshness := b.freshness, updatedAt := b.updatedAt) && b.state == Withdrawn
  }

  lemma NextStillWithdrawn(s: State, e: Event, i: nat, r: Listing)
    requires i < |s.rows| && StillWithdrawn(r, s.rows[i]) && !Republishes(e, r)
    ensures i < |Next(s, e).rows| && StillWithdrawn(r, Next(s, e).rows[i])
  {
    if e.PublishEvent? {
      PublishForm(s.rows, s.agents, e.p, e.actor, e.capacity, e.digest, e.listingId, e.now);
      assert FindPublished(s.rows, e.p) != Some(i);
    }
  }

  ghost predicate Sound(s: State) { WellFormed(s.rows) && Holds(s) }

  lemma NextSound(s: State, run: seq<Event>, n: nat)
    requires n < |run| && PlainRun(run) && Sound(s)
    ensures Sound(Next(s, run[n]))
  {
    NextWellFormed(s, run, n);
    NextHolds(s, run[n]);
  }

  /** What holds at first and is kept by every event of a run holds at the end. */
  lemma {:induction false} KeptByRun(keeps: State -> bool, s: State, run: seq<Event>, n: nat)
    requires n <= |run| && keeps(s)
    requires forall t: State, m: nat :: m < n && keeps(t) ==> keeps(Next(t, run[m]))
    ensures keeps(At(s, run, n))
  {
    if n > 0 {
      KeptByRun(keeps, s, run, n - 1);
      assert keeps(Next(At(s, run, n - 1), run[n - 1]));
    }
  }

  lemma RunSound(s: State, run: seq<Event>, n: nat)
    requires n <= |run| && PlainRun(run) && Sound(s)
    ensures Sound(At(s, run, n))
  {
    var sound := (t: State) => Sound(t);
    forall t: State, m: nat | m < n && sound(t) ensures sound(Next(t, run[m])) {
      NextSound(t, run, m);
    }
    KeptByRun(sound, s, run, n);
  }

  lemma {:induction false} StaysWithdrawn(s: State, run: seq<Event>, n: nat, i: nat, r: Listing)
    requires n <= |run| && i < |s.rows| && StillWithdrawn(r, s.rows[i])
    requires forall m :: 0 <= m < n ==> !Republishes(run[m], r)
    ensures i < |At(s, run, n).rows| && StillWithdrawn(r, At(s, run, n).rows[i])
  {
    if n > 0 {
      StaysWithdrawn(s, run, n - 1, i, r);
      NextStillWithdrawn(At(s, run, n - 1), run[n - 1], i, r);
    }
  }

  /** Until its key is published again, a withdrawn listing stays WITHDRAWN with its hold and contents, whatever
      else happens, and no search returns it, whatever it asks for. */
  lemma WithdrawnUntilRepublished(s: State, run: seq<Event>, n: nat, i: nat, end: State, q: ListingSearch.Query,
                                  shareCode: string -> bool, at: Option<ListingSearch.Cursor>, limit: nat)
    requires n <= |run| && PlainRun(run) && Sound(s) && end == At(s, run, n) && limit >= 1
    requires i < |s.rows| && s.rows[i].state == Withdrawn
    requires forall m :: 0 <= m < n ==> !Republishes(run[m], s.rows[i])
    ensures i < |end.rows| && StillWithdrawn(s.rows[i], end.rows[i])
    ensures NotFound(end, q, shareCode, at, limit, s.rows[i].listingId)
  {
    RunSound(s, run, n);
    StaysWithdrawn(s, run, n, i, s.rows[i]);
    WithdrawnIsNotFound(end, i, q, shareCode, at, limit);
  }

  /** No page of this search holds the listing. */
  ghost predicate NotFound(s: State, q: ListingSearch.Query, shareCode: string -> bool,
                           at: Option<ListingSearch.Cursor>, limit: nat, listingId: string)
    requires limit >= 1
  {
    var page := ListingSearch.PageOf(ListingSearch.Snapshot(s.rows, s.agents, shareCode), q, at, limit);
    forall r :: r in page.results ==> r.listingId != listingId
  }

  lemma WithdrawnIsNotFound(s: State, i: nat, q: ListingSearch.Query, shareCode: string -> bool,
                            at: Option<ListingSearch.Cursor>, limit: nat)
    requires WellFormed(s.rows) && i < |s.rows| && s.rows[i].state == Withdrawn && limit >= 1
    ensures NotFound(s, q, shareCode, at, limit, s.rows[i].listingId)
  {
    var snap := ListingSearch.Snapshot(s.rows, s.agents, shareCode);
    ListingSearch.ResultsArePublic(snap, q, at, limit);
    forall r | r in ListingSearch.PageOf(snap, q, at, limit).results ensures r.listingId != s.rows[i].listingId {
      var j :| 0 <= j < |s.rows| && s.rows[j] == r;
      assert j != i;
    }
  }
}
