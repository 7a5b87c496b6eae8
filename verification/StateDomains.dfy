/** The three state domains of a catalog agent and the folded status column that must agree with them. */
module StateDomains {
  import opened Wrappers

  datatype Level = Discovered | ProfileValid | DomainVerified | AgentVerified | CommerceVerified

  datatype Freshness = Fresh | Stale | Unreachable

  datatype Administrative = Active | Suspended | Rejected

  /** The nine values that the check constraint of verification_status admits. */
  datatype Status = AtLevel(level: Level) | IsStale | IsUnreachable | IsSuspended | IsRejected

  datatype Domains = Domains(level: Level, freshness: Freshness, admin: Administrative)

  const DEFAULTS := Domains(Discovered, Fresh, Active)

  /** rejected, then suspended, then unreachable, then stale, then the level. */
  function Fold(d: Domains): Status {
    if d.admin == Rejected then IsRejected
    else if d.admin == Suspended then IsSuspended
    else if d.freshness == Unreachable then IsUnreachable
    else if d.freshness == Stale then IsStale
    else AtLevel(d.level)
  }

  function DomainsOf(s: Status): Domains {
    match s
    case AtLevel(level) => Domains(level, Fresh, Active)
    case IsStale => Domains(Discovered, Stale, Active)
    case IsUnreachable => Domains(Discovered, Unreachable, Active)
    case IsSuspended => Domains(Discovered, Fresh, Suspended)
    case IsRejected => Domains(Discovered, Fresh, Rejected)
  }

  /** How many domains are away from their default. */
  function Deviations(d: Domains): nat {
    (if d.level == Discovered then 0 else 1) + (if d.freshness == Fresh then 0 else 1)
    + (if d.admin == Active then 0 else 1)
  }

  /** Every status survives the way through the domains; domains survive the way through the status exactly when
      at most one of them says something. */
  lemma FoldInvertsDomains(s: Status, d: Domains)
    ensures Fold(DomainsOf(s)) == s
    ensures DomainsOf(Fold(d)) == d <==> Deviations(d) <= 1
  {
  }

  /** What each status says about the domains: governance goes before freshness, and that before the level. */
  lemma FoldExactly(d: Domains)
    ensures Fold(d) == IsRejected <==> d.admin == Rejected
    ensures Fold(d) == IsSuspended <==> d.admin == Suspended
    ensures Fold(d) == IsUnreachable <==> d.admin == Active && d.freshness == Unreachable
    ensures Fold(d) == IsStale <==> d.admin == Active && d.freshness == Stale
    ensures forall level :: Fold(d) == AtLevel(level) <==> d.admin == Active && d.freshness == Fresh && d.level == level
  {
  }

  // ---------------------------------------------------------------- rows and writers

  /** The columns of catalog_agents that the writers of the domains touch. */
  datatype Row = Row(merchant: string, status: Status, domains: Domains, lastVerifiedAt: string, lastSeenAt: string)

  datatype Error = NotFoundError | ValidationError | IntegrityError

  /** An optional text argument: missing, one of the vocabulary, or anything else. */
  datatype Arg<T> = Absent | Known(value: T) | Unknown

  ghost predicate Agrees(r: Row) { r.status == Fold(r.domains) }

  /** The keyword fields of the private update helper. */
  datatype Fields = Fields(status: Arg<Status>, level: Option<Level>, freshness: Option<Freshness>,
                           admin: Option<Administrative>, merchant: Option<string>, lastVerifiedAt: Option<string>,
                           lastSeenAt: Option<string>)

  const NO_FIELDS := Fields(Absent, None, None, None, None, None, None)

  /** The fold with missing domains taken as empty texts; an empty level is no status at all. */
  function FoldGiven(f: Fields): Arg<Status> {
    if f.admin == Some(Rejected) then Known(IsRejected)
    else if f.admin == Some(Suspended) then Known(IsSuspended)
    else if f.freshness == Some(Unreachable) then Known(IsUnreachable)
    else if f.freshness == Some(Stale) then Known(IsStale)
    else
      match f.level
      case None => Unknown
      case Some(level) => Known(AtLevel(level))
  }

  function Or<T>(o: Option<T>, default: T): T { if o.Some? then o.value else default }

  /** What the helper writes: a status brings the domains it implies unless they are given, domains alone bring
      their fold, and the check constraint refuses any other status. */
  function Updated(r: Row, f: Fields, now: string): Result<Row, Error> {
    var status :=
      if !f.status.Absent? then f.status
      else if f.level.Some? || f.freshness.Some? || f.admin.Some? then FoldGiven(f)
      else Absent;
    var implied := match f.status
      case Absent => r.domains
      case Known(s) => DomainsOf(s)
      case Unknown => DEFAULTS;
    var verified :=
      if status == Known(AtLevel(CommerceVerified)) && f.lastVerifiedAt.None? then Some(now) else f.lastVerifiedAt;
    match status
    case Unknown => Err(IntegrityError)
    case _ =>
      Ok(Row(Or(f.merchant, r.merchant), if status.Known? then status.value else r.status,
             Domains(Or(f.level, implied.level), Or(f.freshness, implied.freshness), Or(f.admin, implied.admin)),
             Or(verified, r.lastVerifiedAt), Or(f.lastSeenAt, r.lastSeenAt)))
  }

  /** All three domains or none of them, and with a status only the domains that fold to it. */
  predicate WholeDomains(f: Fields) {
    match f.status
    case Unknown => true
    case Known(s) =>
      || (f.level.None? && f.freshness.None? && f.admin.None?)
      || (&& f.level.Some? && f.freshness.Some? && f.admin.Some?
          && Fold(Domains(f.level.value, f.freshness.value, f.admin.value)) == s)
    case Absent => f.level.Some? == f.freshness.Some? == f.admin.Some?
  }

  lemma WholeDomainsAgree(r: Row, f: Fields, now: string)
    requires Agrees(r) && WholeDomains(f)
    ensures Updated(r, f, now).Ok? ==> Agrees(Updated(r, f, now).value)
  {
  }

  /** The domain that the fold of these domains is read off. */
  datatype Deciding = ByAdmin | ByFreshness | ByLevel

  function DecidingOf(d: Domains): Deciding {
    if d.admin != Active then ByAdmin else if d.freshness != Fresh then ByFreshness else ByLevel
  }

  predicate Given(f: Fields, which: Deciding) {
    match which
    case ByAdmin => f.admin.Some?
    case ByFreshness => f.freshness.Some?
    case ByLevel => f.level.Some?
  }

  /** Given domains but no status, the helper writes an agreeing row exactly if the domain that decides the fold of
      the new domains is one of the given ones; else the write is refused or parts the columns. */
  lemma GivenDomainsAgreeIff(r: Row, f: Fields, now: string)
    requires f.status.Absent? && (f.level.Some? || f.freshness.Some? || f.admin.Some?)
    ensures var d := Domains(Or(f.level, r.domains.level), Or(f.freshness, r.domains.freshness),
                             Or(f.admin, r.domains.admin));
            Updated(r, f, now).Ok? && Agrees(Updated(r, f, now).value) <==> Given(f, DecidingOf(d))
  {
  }

  /** The decider left out, an input that no public writer supplies: marking a suspended agent stale would show
      it as stale. */
  lemma PartialDomainsDrift(now: string)
    ensures var r := Row("", IsSuspended, Domains(Discovered, Fresh, Suspended), "", "");
            var u := Updated(r, NO_FIELDS.(freshness := Some(Stale)), now);
            Agrees(r) && u.Ok? && !Agrees(u.value)
  {
  }

  type Table = map<string, Row>

  class AgentTable {
    var rows: Table

    constructor ()
      ensures rows == map[]
    {
      rows := map[];
    }

    /** The private helper behind every writer but the insert. */
    method Update(id: string, f: Fields, now: string) returns (result: Result<Row, Error>)
      modifies this
      ensures id !in old(rows) ==> result == Err(NotFoundError) && rows == old(rows)
      ensures id in old(rows) ==> result == Updated(old(rows)[id], f, now)
      ensures id in old(rows) ==> rows == if result.Ok? then old(rows)[id := result.value] else old(rows)
    {
      if id !in rows {
        return Err(NotFoundError);
      }
      var fields := f;
      match f.status {
        case Known(s) =>
          var d := DomainsOf(s);
          fields := fields.(level := Some(Or(f.level, d.level)), freshness := Some(Or(f.freshness, d.freshness)),
                            admin := Some(Or(f.admin, d.admin)));
        case Unknown =>
          return Err(IntegrityError);
        case Absent =>
          if f.level.Some? || f.freshness.Some? || f.admin.Some? {
            fields := fields.(status := FoldGiven(f));
          }
      }
      if fields.status == Known(AtLevel(CommerceVerified)) && fields.lastVerifiedAt.None? {
        fields := fields.(lastVerifiedAt := Some(now));
      }
      if fields.status == Unknown {
        return Err(IntegrityError);
      }
      var r := rows[id];
      if fields.merchant.Some? { r := r.(merchant := fields.merchant.value); }
      if fields.status.Known? { r := r.(status := fields.status.value); }
      if fields.level.Some? { r := r.(domains := r.domains.(level := fields.level.value)); }
      if fields.freshness.Some? { r := r.(domains := r.domains.(freshness := fields.freshness.value)); }
      if fields.admin.Some? { r := r.(domains := r.domains.(admin := fields.admin.value)); }
      if fields.lastVerifiedAt.Some? { r := r.(lastVerifiedAt := fields.lastVerifiedAt.value); }
      if fields.lastSeenAt.Some? { r := r.(lastSeenAt := fields.lastSeenAt.value); }
      rows := rows[id := r];
      return Ok(r);
    }

    method Insert(id: string, merchant: string, status: Arg<Status>, now: string) returns (result: Result<Row, Error>)
      requires id !in rows && !status.Absent?
      modifies this
      ensures rows == Upserted(old(rows), id, merchant, status, now)
      ensures result.Ok? <==> status.Known?
    {
      if status.Unknown? {
        return Err(IntegrityError);
      }
      var s := status.value;
      var row := Row(merchant, s, DomainsOf(s), if s == AtLevel(CommerceVerified) then now else "", now);
      rows := rows[id := row];
      return Ok(row);
    }

    method Upsert(id: string, merchant: string, status: Arg<Status>, now: string) returns (result: Result<Row, Error>)
      requires !status.Absent?
      modifies this
      ensures rows == Upserted(old(rows), id, merchant, status, now)
      ensures result.Ok? <==> status.Known?
      ensures status.Unknown? ==> rows == old(rows)
      ensures status.Known? ==>
                && rows.Keys == old(rows).Keys + {id} && rows[id].merchant == merchant
                && rows[id].status == status.value && rows[id].lastSeenAt == now
                && rows[id].lastVerifiedAt == (if status.value == AtLevel(CommerceVerified) then now
                                               else if id in old(rows) then old(rows)[id].lastVerifiedAt else "")
                && forall other :: other in old(rows) && other != id ==> rows[other] == old(rows)[other]
    {
      if id !in rows {
        result := Insert(id, merchant, status, now);
      } else {
        result := Update(id, NO_FIELDS.(merchant := Some(merchant), status := status, lastSeenAt := Some(now)), now);
      }
    }

    method SetStateDomains(id: string, level: Arg<Level>, freshness: Arg<Freshness>, admin: Arg<Administrative>,
                           lastVerifiedAt: Option<string>, now: string)
    returns (result: Result<Row, Error>)
      modifies this
      ensures rows == DomainsSet(old(rows), id, level, freshness, admin, lastVerifiedAt, now)
      ensures result.Ok? <==> id in old(rows) && !level.Unknown? && !freshness.Unknown? && !admin.Unknown?
      ensures result.Err? ==> result.error == if id in old(rows) then ValidationError else NotFoundError
      ensures result.Err? ==> rows == old(rows)
      ensures result.Ok? ==>
                && rows.Keys == old(rows).Keys
                && (forall other :: other in rows && other != id ==> rows[other] == old(rows)[other])
                && var was, row := old(rows)[id], rows[id];
                   && row.domains.level == (if level.Known? then level.value else was.domains.level)
                   && row.domains.freshness == (if freshness.Known? then freshness.value else was.domains.freshness)
                   && row.domains.admin == (if admin.Known? then admin.value else was.domains.admin)
                   && row.status == Fold(row.domains)
                   && row.merchant == was.merchant && row.lastSeenAt == was.lastSeenAt
                   && row.lastVerifiedAt == (if lastVerifiedAt.Some? then lastVerifiedAt.value
                                             else if row.status == AtLevel(CommerceVerified) then now
                                             else was.lastVerifiedAt)
    {
      if id !in rows {
        return Err(NotFoundError);
      }
      if level.Unknown? || freshness.Unknown? || admin.Unknown? {
        return Err(ValidationError);
      }
      var current := rows[id].domains;
      var d := Domains(if level.Known? then level.value else current.level,
                       if freshness.Known? then freshness.value else current.freshness,
                       if admin.Known? then admin.value else current.admin);
      result := Update(id, NO_FIELDS.(level := Some(d.level), freshness := Some(d.freshness), admin := Some(d.admin),
                                      status := Known(Fold(d)), lastVerifiedAt := lastVerifiedAt), now);
    }

    method SetVerificationStatus(id: string, status: Arg<Status>, lastVerifiedAt: Option<string>, now: string)
      returns (result: Result<Row, Error>)
      requires !status.Absent?
      modifies this
      ensures var d := if status.Known? then DomainsOf(status.value) else DEFAULTS;
              rows == DomainsSet(old(rows), id, Known(d.level), Known(d.freshness), Known(d.admin), lastVerifiedAt, now)
    {
      var d := if status.Known? then DomainsOf(status.value) else DEFAULTS;
      result := SetStateDomains(id, Known(d.level), Known(d.freshness), Known(d.admin), lastVerifiedAt, now);
    }

    /** The heartbeat. */
    method Touch(id: string, now: string) returns (result: Result<Row, Error>)
      modifies this
      ensures rows == Touched(old(rows), id, now)
      ensures result.Ok? <==> id in old(rows)
      ensures id in old(rows) ==>
                && rows.Keys == old(rows).Keys
                && (forall other :: other in rows && other != id ==> rows[other] == old(rows)[other])
                && var was, row := old(rows)[id], rows[id];
                   && row.lastSeenAt == now && row.merchant == was.merchant
                   && row.domains.level == was.domains.level && row.domains.admin == was.domains.admin
                   && row.domains.freshness == (if was.domains.admin == Active then Fresh else was.domains.freshness)
      ensures id !in old(rows) ==> rows == old(rows) && result == Err(NotFoundError)
    {
      if id !in rows {
        return Err(NotFoundError);
      }
      var current := rows[id];
      rows := rows[id := current.(lastSeenAt := now)];
      if current.domains.admin == Active && current.domains.freshness != Fresh {
        var _ := SetStateDomains(id, Absent, Known(Fresh), Absent, None, now);
      }
      return Ok(rows[id]);
    }

    method SetMerchant(id: string, merchant: string, now: string) returns (result: Result<Row, Error>)
      modifies this
      ensures rows == if id in old(rows) then old(rows)[id := old(rows)[id].(merchant := merchant)] else old(rows)
    {
      result := Update(id, NO_FIELDS.(merchant := Some(merchant)), now);
    }

    /** Registration: an upsert as discovered, followed by a direct write of the administrative column. */
    method Register(id: string, merchant: string, now: string)
      modifies this
      ensures rows == Upserted(old(rows), id, merchant, Known(AtLevel(Discovered)), now)
    {
      var _ := Upsert(id, merchant, Known(AtLevel(Discovered)), now);
      RegisteredIsActive(old(rows), id, merchant, now);
      rows := rows[id := WriteActive(rows[id])];
    }
  }

  // ---------------------------------------------------------------- the writers on values

  function Upserted(rows: Table, id: string, merchant: string, status: Arg<Status>, now: string): Table
    requires !status.Absent?
  {
    if status.Unknown? then rows
    else
      var d := DomainsOf(status.value);
      var verified := if status.value == AtLevel(CommerceVerified) then now
                      else if id in rows then rows[id].lastVerifiedAt else "";
      rows[id := Row(merchant, status.value, d, verified, now)]
  }

  function DomainsSet(rows: Table, id: string, level: Arg<Level>, freshness: Arg<Freshness>, admin: Arg<Administrative>,
                      lastVerifiedAt: Option<string>, now: string)
    : Table
  {
    if id !in rows || level.Unknown? || freshness.Unknown? || admin.Unknown? then rows
    else
      var current := rows[id].domains;
      var d := Domains(if level.Known? then level.value else current.level,
                       if freshness.Known? then freshness.value else current.freshness,
                       if admin.Known? then admin.value else current.admin);
      var verified :=
        if Fold(d) == AtLevel(CommerceVerified) && lastVerifiedAt.None? then Some(now) else lastVerifiedAt;
      rows[id := rows[id].(domains := d, status := Fold(d), lastVerifiedAt := Or(verified, rows[id].lastVerifiedAt))]
  }

  function Touched(rows: Table, id: string, now: string): Table {
    if id !in rows then rows
    else
      var seen := rows[id := rows[id].(lastSeenAt := now)];
      if rows[id].domains.admin == Active && rows[id].domains.freshness != Fresh
      then DomainsSet(seen, id, Absent, Known(Fresh), Absent, None, now) else seen
  }

  /** The direct write after a registration. */
  function WriteActive(r: Row): Row { r.(domains := r.domains.(admin := Active)) }

  /** After the upsert as discovered the direct write changes nothing, whatever the agent was before. */
  lemma RegisteredIsActive(rows: Table, id: string, merchant: string, now: string)
    ensures var after := Upserted(rows, id, merchant, Known(AtLevel(Discovered)), now);
            id in after && after[id].domains == DEFAULTS && WriteActive(after[id]) == after[id]
  {
  }

  // ---------------------------------------------------------------- runs

  datatype Write =
    | UpsertWrite(id: string, merchant: string, status: Arg<Status>, now: string)
    | StatusWrite(id: string, status: Arg<Status>, lastVerifiedAt: Option<string>, now: string)
    | DomainsWrite(id: string, level: Arg<Level>, freshness: Arg<Freshness>, admin: Arg<Administrative>,
                   lastVerifiedAt: Option<string>, now: string)
    | Heartbeat(id: string, now: string)
    | MerchantWrite(id: string, merchant: string)
    | RegisterWrite(id: string, merchant: string, now: string)

  function Next(rows: Table, w: Write): Table {
    match w
    case UpsertWrite(id, merchant, status, now) =>
      if status.Absent? then rows else Upserted(rows, id, merchant, status, now)
    case StatusWrite(id, status, verified, now) =>
      var d := if status.Known? then DomainsOf(status.value) else DEFAULTS;
      DomainsSet(rows, id, Known(d.level), Known(d.freshness), Known(d.admin), verified, now)
    case DomainsWrite(id, level, freshness, admin, verified, now) =>
      DomainsSet(rows, id, level, freshness, admin, verified, now)
    case Heartbeat(id, now) => Touched(rows, id, now)
    case MerchantWrite(id, merchant) => if id in rows then rows[id := rows[id].(merchant := merchant)] else rows
    case RegisterWrite(id, merchant, now) =>
      var upserted := Upserted(rows, id, merchant, Known(AtLevel(Discovered)), now);
      upserted[id := WriteActive(upserted[id])]
  }

  function Run(rows: Table, writes: seq<Write>): Table
    decreases |writes|
  {
    if writes == [] then rows else Run(Next(rows, writes[0]), writes[1..])
  }

  ghost predicate AllAgree(rows: Table) { forall id :: id in rows ==> Agrees(rows[id]) }

  lemma NextAgrees(rows: Table, w: Write)
    requires AllAgree(rows)
    ensures AllAgree(Next(rows, w))
  {
    if w.StatusWrite? && w.status.Known? {
      FoldInvertsDomains(w.status.value, DEFAULTS);
    }
    if w.UpsertWrite? && w.status.Known? {
      FoldInvertsDomains(w.status.value, DEFAULTS);
    }
  }

  /** What a status write or an upsert stores reads back as the status that was written. */
  lemma StatusReadsBack(rows: Table, id: string, merchant: string, s: Status, now: string)
    ensures var upserted := Next(rows, UpsertWrite(id, merchant, Known(s), now));
            id in upserted && upserted[id].status == s && upserted[id].merchant == merchant
    ensures id in rows ==>
              var written := Next(rows, StatusWrite(id, Known(s), None, now));
              id in written && written[id].status == s && written[id].merchant == rows[id].merchant
    ensures forall other :: other in rows && other != id ==>
              && Next(rows, UpsertWrite(id, merchant, Known(s), now))[other] == rows[other]
              && Next(rows, StatusWrite(id, Known(s), None, now))[other] == rows[other]
  {
    FoldInvertsDomains(s, DEFAULTS);
  }

  /** After any sequence of writers, every status column is the fold of the three domains. */
  lemma {:induction false} StatusAlwaysAgrees(rows: Table, writes: seq<Write>)
    requires AllAgree(rows)
    ensures AllAgree(Run(rows, writes))
    decreases |writes|
  {
    if writes != [] {
      NextAgrees(rows, writes[0]);
      StatusAlwaysAgrees(Next(rows, writes[0]), writes[1..]);
    }
  }

  /** Heartbeats, however many, never change an administrative or a level domain, and never bring back an agent
      that is suspended or rejected. */
  lemma {:induction false} HeartbeatsRespectGovernance(rows: Table, writes: seq<Write>, id: string)
    requires AllAgree(rows) && id in rows && forall w :: w in writes ==> w.Heartbeat?
    ensures id in Run(rows, writes)
    ensures var before, after := rows[id], Run(rows, writes)[id];
            && after.domains.admin == before.domains.admin && after.domains.level == before.domains.level
            && (before.domains.admin != Active ==> after.status == before.status && after.domains == before.domains)
            && (before.domains.admin == Active && Heartbeaten(writes, id) ==> after.domains.freshness == Fresh)
    decreases |writes|
  {
    if writes != [] {
      assert writes[0] in writes;
      NextAgrees(rows, writes[0]);
      HeartbeatsRespectGovernance(Next(rows, writes[0]), writes[1..], id);
      if writes[0].id == id && rows[id].domains.admin == Active {
        FreshStaysFresh(Next(rows, writes[0]), writes[1..], id);
      } else if writes[0].id != id && Heartbeaten(writes, id) {
        var i :| 0 <= i < |writes| && writes[i].id == id;
        assert writes[1..][i - 1].id == id;
      }
    }
  }

  predicate Heartbeaten(writes: seq<Write>, id: string) {
    exists i :: 0 <= i < |writes| && writes[i].id == id
  }

  lemma {:induction false} FreshStaysFresh(rows: Table, writes: seq<Write>, id: string)
    requires id in rows && rows[id].domains.freshness == Fresh && forall w :: w in writes ==> w.Heartbeat?
    ensures id in Run(rows, writes) && Run(rows, writes)[id].domains.freshness == Fresh
    decreases |writes|
  {
    if writes != [] {
      assert writes[0] in writes;
      FreshStaysFresh(Next(rows, writes[0]), writes[1..], id);
    }
  }

  // ---------------------------------------------------------------- the backfill

  /** Migration 8: derive the domains of rows that still hold the defaults. */
  function Backfilled(r: Row): Row {
    if r.domains == DEFAULTS then r.(domains := DomainsOf(r.status)) else r
  }

  /** The backfill leaves a row in agreement exactly when it held the defaults or was in agreement already; it
      never touches the status. */
  lemma BackfillAgreesIff(r: Row)
    ensures Agrees(Backfilled(r)) <==> r.domains == DEFAULTS || Agrees(r)
    ensures Backfilled(r).status == r.status && Backfilled(Backfilled(r)) == Backfilled(r)
  {
    FoldInvertsDomains(r.status, r.domains);
  }

  /** So a database from before the domains, whose new columns all hold their defaults, agrees from then on. */
  lemma LegacyDatabaseAgrees(rows: Table, writes: seq<Write>)
    requires forall id :: id in rows ==> rows[id].domains == DEFAULTS
    ensures AllAgree(Run(map id | id in rows :: Backfilled(rows[id]), writes))
  {
    var migrated := map id | id in rows :: Backfilled(rows[id]);
    forall id | id in migrated ensures Agrees(migrated[id]) {
      BackfillAgreesIff(rows[id]);
    }
    StatusAlwaysAgrees(migrated, writes);
  }
}
