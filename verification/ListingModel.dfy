/** The commerce_listings table, the owner agents it refers to, and lazy freshness expiry. */
module ListingModel {
  import opened Order
  import opened Wrappers

  datatype ListingType = Product | Capability

  datatype PublicationState = Active | Withdrawn | Suspended

  datatype Freshness = Fresh | Stale

  datatype AdministrativeState = InGoodStanding | AgentSuspended | AgentRejected

  /** A catalog agent, as far as its listings depend on it; merchant "" means not bound. */
  datatype Agent = Agent(admin: AdministrativeState, merchant: string) {
    predicate Blocked() { admin != InGoodStanding }
  }

  // governance_hold: 0 none, 1 set by governance, 2 legacy content quarantine
  const NO_HOLD := 0
  const GOVERNANCE_HOLD := 1
  const QUARANTINE_HOLD := 2

  /** One row; content stands for every publisher-supplied column that no operation inspects, digest for the
      digest of the published payload without its expiry. */
  datatype Listing = Listing(
    id: nat,
    listingId: string,
    listingType: ListingType,
    owner: string,
    merchant: string,
    sourceRef: Option<string>,
    publisherKey: Option<string>,
    content: string,
    digest: string,
    state: PublicationState,
    hold: int,
    freshness: Freshness,
    publishedAt: string,
    updatedAt: string,
    freshUntil: string)

  /** Timestamps and listing ids never contain the separator of the cursor text. */
  predicate Plain(s: string) { '|' !in s }

  /** Primary key, unique listing_id, and separator-free cursor fields. */
  ghost predicate WellFormed(rows: seq<Listing>) {
    && (forall i, j :: 0 <= i < j < |rows| ==> rows[i].id != rows[j].id && rows[i].listingId != rows[j].listingId)
    && (forall r :: r in rows ==> Plain(r.listingId) && Plain(r.updatedAt))
  }

  function ExpireRow(r: Listing, now: string): Listing {
    if r.freshness == Fresh && TextBefore(r.freshUntil, now)
    then r.(freshness := Stale, updatedAt := now)
    else r
  }

  /** What the expiry update leaves in the table. */
  function Expired(rows: seq<Listing>, now: string): (result: seq<Listing>)
    ensures |result| == |rows|
    ensures forall i :: 0 <= i < |rows| ==> result[i] == ExpireRow(rows[i], now)
  {
    seq(|rows|, i requires 0 <= i < |rows| => ExpireRow(rows[i], now))
  }

  lemma ExpiredWellFormed(rows: seq<Listing>, now: string)
    requires WellFormed(rows) && Plain(now)
    ensures WellFormed(Expired(rows, now))
  {
    var after := Expired(rows, now);
    forall r | r in after ensures Plain(r.listingId) && Plain(r.updatedAt) {
      var i :| 0 <= i < |after| && after[i] == r;
      assert rows[i] in rows;
    }
  }

  /** The part of the database that the listing operations read and write. */
  class ListingTable {
    var rows: seq<Listing>
    var agents: map<string, Agent>
    const shareCode: string -> bool

    constructor (rows: seq<Listing>, agents: map<string, Agent>, shareCode: string -> bool)
      ensures this.rows == rows && this.agents == agents && this.shareCode == shareCode
    {
      this.rows, this.agents, this.shareCode := rows, agents, shareCode;
    }

    /** One update statement: exactly the rows still FRESH past their fresh_until turn STALE, with updated_at set
        to now; nothing else about them changes, and no other row does. */
    method ExpireStale(now: string)
      modifies this`rows
      ensures |rows| == |old(rows)|
      ensures forall i :: 0 <= i < |rows| ==>
                var r := old(rows)[i];
                rows[i] == if r.freshness == Fresh && TextBefore(r.freshUntil, now)
                           then r.(freshness := Stale, updatedAt := now) else r
      ensures forall i :: 0 <= i < |rows| && rows[i].freshness == Fresh ==> !TextBefore(rows[i].freshUntil, now)
      ensures rows == Expired(old(rows), now)
    {
      rows := Expired(rows, now);
    }
  }
}
