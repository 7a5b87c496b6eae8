/** Keyset pagination of catalog agents: the four-way cursor predicate against the page order. */
module AgentPagination {
  import opened Order
  import opened Wrappers

  /** The sorted columns of a catalog agent; None is SQL null. */
  datatype AgentRow = AgentRow(id: string, status: string, verifiedAt: Option<string>, displayName: Option<string>)

  function StatusRank(status: string): nat {
    match status
    case "commerce_verified" => 0
    case "agent_verified" => 1
    case "domain_verified" => 2
    case "profile_valid" => 3
    case "discovered" => 4
    case "stale" => 5
    case "unreachable" => 6
    case "suspended" => 7
    case "rejected" => 8
    case _ => 9
  }

  function SortName(r: AgentRow): string { if r.displayName.Some? then r.displayName.value else "" }

  // ---------------------------------------------------------------- page order

  /** The four sort keys; a cursor carries one of these. */
  datatype Key = Key(rank: int, verifiedAt: Option<string>, name: string, id: string)

  function KeyOf(r: AgentRow): Key { Key(StatusRank(r.status), r.verifiedAt, SortName(r), r.id) }

  /** Newest first, and nulls after every timestamp. */
  predicate NewerBefore(a: Option<string>, b: Option<string>) {
    a.Some? && (b.None? || TextBefore(b.value, a.value))
  }

  predicate KeyBefore(a: Key, b: Key) {
    || a.rank < b.rank
    || (&& a.rank == b.rank
        && (|| NewerBefore(a.verifiedAt, b.verifiedAt)
            || (&& a.verifiedAt == b.verifiedAt
                && (TextBefore(a.name, b.name) || (a.name == b.name && TextBefore(a.id, b.id))))))
  }

  predicate Before(a: AgentRow, b: AgentRow) { KeyBefore(KeyOf(a), KeyOf(b)) }

  ghost predicate UniqueIds(rows: seq<AgentRow>) {
    forall i, j :: 0 <= i < j < |rows| ==> rows[i].id != rows[j].id
  }

  /** last_verified_at is declared not null. */
  ghost predicate AllVerified(rows: seq<AgentRow>) {
    forall r :: r in rows ==> r.verifiedAt.Some?
  }

  lemma KeyTransitive(a: Key, b: Key, c: Key)
    requires KeyBefore(a, b) && KeyBefore(b, c)
    ensures KeyBefore(a, c)
  {
    TextStrictTotal();
  }

  lemma BeforeStrict(rows: seq<AgentRow>)
    requires UniqueIds(rows)
    ensures StrictOrder(Before) && Decides(Before, rows)
  {
    forall a: AgentRow ensures !Before(a, a) { TextStrictTotal(); }
    forall a, b, c: AgentRow | Before(a, b) && Before(b, c) ensures Before(a, c) {
      KeyTransitive(KeyOf(a), KeyOf(b), KeyOf(c));
    }
    forall i, j | 0 <= i < j < |rows| ensures Before(rows[i], rows[j]) || Before(rows[j], rows[i]) {
      TextStrictTotal();
    }
  }

  // ---------------------------------------------------------------- cursor predicate

  /** The where clause of a cursor: four alternatives, a comparison with null being false. */
  predicate Admits(c: Key, r: AgentRow) {
    var rank := StatusRank(r.status);
    || rank > c.rank
    || (&& rank == c.rank
        && (|| (r.verifiedAt.Some? && c.verifiedAt.Some? && TextBefore(r.verifiedAt.value, c.verifiedAt.value))
            || r.verifiedAt.None?))
    || (rank == c.rank && r.verifiedAt == c.verifiedAt && TextBefore(c.name, SortName(r)))
    || (rank == c.rank && r.verifiedAt == c.verifiedAt && SortName(r) == c.name && TextBefore(c.id, r.id))
  }

  lemma StatusOfRank(rank: int) returns (status: string)
    requires 0 <= rank <= 9
    ensures StatusRank(status) == rank
  {
    status := ["commerce_verified", "agent_verified", "domain_verified", "profile_valid", "discovered",
               "stale", "unreachable", "suspended", "rejected", ""][rank];
  }

  /** The predicate admits exactly the rows strictly behind the cursor in page order, for every row, if and
      only if the cursor carries a timestamp (or a rank that no row can have). */
  lemma AdmitsExactly(c: Key)
    ensures (forall r :: Admits(c, r) == KeyBefore(c, KeyOf(r))) <==> c.verifiedAt.Some? || !(0 <= c.rank <= 9)
  {
    if c.verifiedAt.None? && 0 <= c.rank <= 9 {
      var status := StatusOfRank(c.rank);
      var r := AgentRow(c.id, status, None, Some(c.name));
      assert Admits(c, r);
      assert KeyOf(r) == c;
      assert !KeyBefore(c, c) by { TextStrictTotal(); }
    }
  }

  // ---------------------------------------------------------------- pages

  predicate InScope(keep: AgentRow -> bool, at: Option<Key>, r: AgentRow) {
    keep(r) && (at.Some? ==> Admits(at.value, r))
  }

  function Remaining(rows: seq<AgentRow>, keep: AgentRow -> bool, at: Option<Key>): seq<AgentRow> {
    SortBy(Before, Select(r => InScope(keep, at, r), rows))
  }

  datatype Page = Page(rows: seq<AgentRow>, next: Option<Key>)

  /** The page query fetches one sentinel row beyond the limit. */
  function Fetch(rows: seq<AgentRow>, keep: AgentRow -> bool, at: Option<Key>, limit: nat): seq<AgentRow> {
    var all := Remaining(rows, keep, at);
    if |all| <= limit + 1 then all else all[..limit + 1]
  }

  /** Drops the sentinel and turns the last returned row into a cursor. */
  function Paginate(fetched: seq<AgentRow>, limit: nat): Page {
    var shown := if |fetched| > limit then fetched[..limit] else fetched;
    Page(shown, if |fetched| > limit && shown != [] then Some(KeyOf(shown[|shown| - 1])) else None)
  }

  function PageOf(rows: seq<AgentRow>, keep: AgentRow -> bool, at: Option<Key>, limit: nat): Page {
    Paginate(Fetch(rows, keep, at, limit), limit)
  }

  /** Continuing behind the j-th remaining row. */
  lemma RemainingAfter(rows: seq<AgentRow>, keep: AgentRow -> bool, at: Option<Key>, j: nat)
    requires UniqueIds(rows) && AllVerified(rows)
    requires at.Some? ==> at.value.verifiedAt.Some?
    requires j < |Remaining(rows, keep, at)|
    ensures var b := Remaining(rows, keep, at)[j];
            b.verifiedAt.Some? && Remaining(rows, keep, Some(KeyOf(b))) == Remaining(rows, keep, at)[j + 1..]
  {
    var scope := r => InScope(keep, at, r);
    var rem := Remaining(rows, keep, at);
    var b := rem[j];
    var next := r => InScope(keep, Some(KeyOf(b)), r);
    SortMembers(Before, Select(scope, rows));
    SelectBounds(scope, rows);
    assert b in rem;
    AdmitsExactly(KeyOf(b));
    forall r | r in rows ensures next(r) == (scope(r) && Before(b, r)) {
      if Before(b, r) && at.Some? {
        AdmitsExactly(at.value);
        KeyTransitive(at.value, KeyOf(b), KeyOf(r));
      }
    }
    BeforeStrict(rows);
    ContinueAfter(Before, scope, next, rows, j);
  }

  /** A page is the next limit rows; it has a cursor exactly when rows are left, and the cursor leads to them. */
  lemma PageAdvances(rows: seq<AgentRow>, keep: AgentRow -> bool, at: Option<Key>, limit: nat)
    requires UniqueIds(rows) && AllVerified(rows) && limit >= 1
    requires at.Some? ==> at.value.verifiedAt.Some?
    ensures var rem := Remaining(rows, keep, at);
            var page := PageOf(rows, keep, at, limit);
            if |rem| <= limit then page == Page(rem, None)
            else
              && page.rows == rem[..limit]
              && page.next.Some? && page.next.value.verifiedAt.Some?
              && Remaining(rows, keep, page.next) == rem[limit..]
  {
    var rem := Remaining(rows, keep, at);
    if |rem| > limit {
      RemainingAfter(rows, keep, at, limit - 1);
      PrefixOfPrefix(rem, limit);
    }
  }

  type PageSize = n: nat | n >= 1 witness 1

  /** Follow next_cursor with whatever page sizes; the result is the rows seen and whether the list ended. */
  function Walk(rows: seq<AgentRow>, keep: AgentRow -> bool, at: Option<Key>, limits: seq<PageSize>)
    : (seq<AgentRow>, bool)
    decreases |limits|
  {
    if limits == [] then ([], false)
    else
      var page := PageOf(rows, keep, at, limits[0]);
      if page.next.None? then (page.rows, true)
      else
        var rest := Walk(rows, keep, page.next, limits[1..]);
        (page.rows + rest.0, rest.1)
  }

  /** With enough requests of any positive sizes the pages concatenate to the whole filtered list in page
      order: no gap and no repeat. */
  lemma {:induction false} WalkIsWholeList(rows: seq<AgentRow>, keep: AgentRow -> bool, at: Option<Key>,
                                           limits: seq<PageSize>)
    requires UniqueIds(rows) && AllVerified(rows)
    requires at.Some? ==> at.value.verifiedAt.Some?
    requires |limits| > 0 && |limits| >= |Remaining(rows, keep, at)|
    ensures Walk(rows, keep, at, limits) == (Remaining(rows, keep, at), true)
    decreases |limits|
  {
    var rem, n := Remaining(rows, keep, at), limits[0];
    PageAdvances(rows, keep, at, n);
    if |rem| > n {
      WalkIsWholeList(rows, keep, PageOf(rows, keep, at, n).next, limits[1..]);
      Halves(rem, n);
    }
  }

  /** Statuses rank in this order, and anything else behind them. */
  lemma StatusRankExactly(status: string)
    ensures var order := ["commerce_verified", "agent_verified", "domain_verified", "profile_valid", "discovered",
                          "stale", "unreachable", "suspended", "rejected"];
            if status in order then StatusRank(status) < 9 && order[StatusRank(status)] == status
            else StatusRank(status) == 9
  {
  }

  /** Such a walk from the start hands out exactly the agents that pass the filters, the better status first, then
      the more recently verified, then by name, where no name is the empty one, and then by id. */
  lemma WalkIsSorted(rows: seq<AgentRow>, keep: AgentRow -> bool, limits: seq<PageSize>)
    requires UniqueIds(rows) && AllVerified(rows)
    requires |limits| > 0 && |limits| >= |rows|
    ensures var list := Walk(rows, keep, None, limits).0;
            && (forall r :: r in list <==> r in rows && keep(r))
            && forall i, j :: 0 <= i < j < |list| ==>
                 var a, b := list[i], list[j];
                 var x := if a.displayName.Some? then a.displayName.value else "";
                 var y := if b.displayName.Some? then b.displayName.value else "";
                 && a.verifiedAt.Some? && b.verifiedAt.Some?
                 && (|| StatusRank(a.status) < StatusRank(b.status)
                     || (&& StatusRank(a.status) == StatusRank(b.status)
                         && (|| TextBefore(b.verifiedAt.value, a.verifiedAt.value)
                             || (&& a.verifiedAt == b.verifiedAt
                                 && (TextBefore(x, y) || (x == y && TextBefore(a.id, b.id)))))))
  {
    var scope := r => InScope(keep, None, r);
    var list := Remaining(rows, keep, None);
    SelectBounds(scope, rows);
    SortMembers(Before, Select(scope, rows));
    SortedLength(rows, scope);
    WalkIsWholeList(rows, keep, None, limits);
    BeforeStrict(rows);
    SelectDecides(Before, scope, rows);
    SortSorted(Before, Select(scope, rows));
    forall i, j | 0 <= i < j < |list| ensures Before(list[i], list[j]) && list[i] in rows && list[j] in rows {
      assert list[i] in list && list[j] in list;
    }
  }

  lemma SortedLength(rows: seq<AgentRow>, scope: AgentRow -> bool)
    ensures |SortBy(Before, Select(scope, rows))| <= |rows|
  {
    SelectBounds(scope, rows);
    SortMultiset(Before, Select(scope, rows));
    assert |SortBy(Before, Select(scope, rows))| == |multiset(SortBy(Before, Select(scope, rows)))|;
    assert |Select(scope, rows)| == |multiset(Select(scope, rows))|;
  }

  /** Why the schema has to forbid null timestamps: a cursor made from such a row leads back to that row. */
  lemma NullCursorRepeatsRow(rows: seq<AgentRow>, keep: AgentRow -> bool, r: AgentRow)
    requires r in rows && keep(r) && r.verifiedAt.None?
    ensures r in Remaining(rows, keep, Some(KeyOf(r)))
  {
    var scope := x => InScope(keep, Some(KeyOf(r)), x);
    SelectBounds(scope, rows);
    SortMembers(Before, Select(scope, rows));
  }
}
