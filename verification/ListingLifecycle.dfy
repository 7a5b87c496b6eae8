/** Publishing, withdrawing, reinstating and suspending listings, over the table of ListingModel. */
module ListingLifecycle {
  import opened Wrappers
  import opened ListingModel
  import ListingSearch

  datatype Error = NotFoundError | PermissionDenied | CapacityExceeded | IntegrityError

  /** A validated publish payload; freshUntil is the declared or the default time. */
  datatype Payload = Payload(listingType: ListingType, owner: string, merchant: string,
                             sourceRef: Option<string>, publisherKey: Option<string>,
                             content: string, freshUntil: string)

  datatype Actor = Admin | Runtime | Publisher

  predicate Filled(s: Option<string>) { s.Some? && s.value != "" }

  /** What payload validation guarantees: a product has a reference only, a capability at most a key. */
  predicate Contract(p: Payload) {
    match p.listingType
    case Product => Filled(p.sourceRef) && p.publisherKey.None?
    case Capability => p.sourceRef.None? && (p.publisherKey.None? || Filled(p.publisherKey))
  }

  /** The reference if there is one, else the key. */
  function UpsertKey(p: Payload): Option<string> {
    if Filled(p.sourceRef) then p.sourceRef else if Filled(p.publisherKey) then p.publisherKey else None
  }

  // ---------------------------------------------------------------- lookups

  predicate HasKey(r: Listing, listingType: ListingType, owner: string, key: string) {
    && r.owner == owner && r.listingType == listingType
    && (r.sourceRef == Some(key) || r.publisherKey == Some(key))
  }

  /** The matching row with the greatest id; None if no row matches. */
  function FindByKey(rows: seq<Listing>, listingType: ListingType, owner: string, key: string): (r: Option<nat>)
    ensures r.Some? ==> r.value < |rows| && HasKey(rows[r.value], listingType, owner, key)
    ensures r.Some? ==>
              forall i :: 0 <= i < |rows| && HasKey(rows[i], listingType, owner, key) ==> rows[i].id <= rows[r.value].id
    ensures r.None? ==> forall i :: 0 <= i < |rows| ==> !HasKey(rows[i], listingType, owner, key)
  {
    if rows == [] then None
    else
      var n := |rows| - 1;
      var best := FindByKey(rows[..n], listingType, owner, key);
      assert forall i :: 0 <= i < n ==> rows[..n][i] == rows[i];
      if HasKey(rows[n], listingType, owner, key) && (best.None? || rows[n].id > rows[best.value].id)
      then Some(n) else best
  }

  function FindListing(rows: seq<Listing>, listingId: string): (r: Option<nat>)
    ensures r.Some? ==> r.value < |rows| && rows[r.value].listingId == listingId
    ensures r.None? ==> forall i :: 0 <= i < |rows| ==> rows[i].listingId != listingId
  {
    if rows == [] then None
    else if rows[0].listingId == listingId then Some(0)
    else
      match FindListing(rows[1..], listingId)
      case None => None
      case Some(i) => Some(i + 1)
  }

  /** The partial unique indexes on (owner, type, reference) and (owner, type, key). */
  predicate Collides(a: Listing, b: Listing) {
    && a.owner == b.owner && a.listingType == b.listingType
    && ((a.sourceRef.Some? && a.sourceRef == b.sourceRef) || (a.publisherKey.Some? && a.publisherKey == b.publisherKey))
  }

  predicate ViolatesUnique(rows: seq<Listing>, row: Listing, but: Option<nat>) {
    exists i :: 0 <= i < |rows| && Some(i) != but && (Collides(rows[i], row) || rows[i].listingId == row.listingId)
  }

  function NextId(rows: seq<Listing>): nat {
    if rows == [] then 1
    else
      var n := |rows| - 1;
      var rest := NextId(rows[..n]);
      if rows[n].id >= rest then rows[n].id + 1 else rest
  }

  // ---------------------------------------------------------------- the operations

  /** The owner exists, is neither suspended nor rejected, and is not bound to another merchant. */
  function OwnerError(agents: map<string, Agent>, owner: string, merchant: string): Option<Error> {
    if owner !in agents then Some(NotFoundError)
    else if agents[owner].Blocked() then Some(PermissionDenied)
    else if agents[owner].merchant != "" && agents[owner].merchant != merchant then Some(PermissionDenied)
    else None
  }

  /** A full refresh of the content columns; published_at stays. */
  function Refreshed(r: Listing, p: Payload, digest: string, now: string): Listing {
    r.(sourceRef := p.sourceRef, publisherKey := p.publisherKey, content := p.content, digest := digest,
       state := Active, freshness := Fresh, publishedAt := if r.publishedAt == "" then now else r.publishedAt,
       updatedAt := now, freshUntil := p.freshUntil)
  }

  /** The refreshed row, released if it was under a content quarantine. */
  function Republished(r: Listing, p: Payload, digest: string, now: string): Listing {
    Refreshed(r, p, digest, now).(hold := if r.hold == QUARANTINE_HOLD then NO_HOLD else r.hold)
  }

  function NewRow(rows: seq<Listing>, p: Payload, digest: string, listingId: string, now: string): Listing {
    Listing(NextId(rows), listingId, p.listingType, p.owner, p.merchant, p.sourceRef, p.publisherKey, p.content, digest,
            Active, NO_HOLD, Fresh, now, now, p.freshUntil)
  }

  function FindPublished(rows: seq<Listing>, p: Payload): (r: Option<nat>)
    ensures r.Some? ==> r.value < |rows| && UpsertKey(p).Some? &&
                        HasKey(rows[r.value], p.listingType, p.owner, UpsertKey(p).value)
  {
    if UpsertKey(p).Some? then FindByKey(rows, p.listingType, p.owner, UpsertKey(p).value) else None
  }

  /** What a publish has decided to do from what it has read; rows are never deleted or moved. */
  datatype Plan = Insert | UpdateRow(i: nat, release: bool)

  /** The first half of a publish: owner, hold and capacity, from the rows as they are read. */
  function Decide(rows: seq<Listing>, agents: map<string, Agent>, p: Payload, actor: Actor, capacity: bool)
    : (r: Result<Plan, Error>)
    ensures r.Ok? && r.value.UpdateRow? ==> r.value.i < |rows|
  {
    var ownerError := OwnerError(agents, p.owner, p.merchant);
    var found := FindPublished(rows, p);
    if ownerError.Some? then Err(ownerError.value)
    else if found.Some? && rows[found.value].hold == GOVERNANCE_HOLD then Err(PermissionDenied)
    else if actor == Runtime && !capacity then Err(CapacityExceeded)
    else if found.None? then Ok(Insert)
    else Ok(UpdateRow(found.value, rows[found.value].hold == QUARANTINE_HOLD))
  }

  function UpdateAt(rows: seq<Listing>, i: nat, release: bool, p: Payload, digest: string, now: string)
    : (seq<Listing>, Result<bool, Error>)
    requires i < |rows|
  {
    var row := Refreshed(rows[i], p, digest, now);
    if ViolatesUnique(rows, row, Some(i)) then (rows, Err(IntegrityError))
    else (rows[i := if release && row.hold == QUARANTINE_HOLD then row.(hold := NO_HOLD) else row], Ok(false))
  }

  /** The second half, on the rows as they are when it writes. An insert that meets a unique index looks the key up
      once more and updates the row that got there first. */
  function CarryOut(rows: seq<Listing>, plan: Plan, p: Payload, digest: string, listingId: string, now: string)
    : (seq<Listing>, Result<bool, Error>)
    requires plan.UpdateRow? ==> plan.i < |rows|
  {
    match plan
    case UpdateRow(i, release) => UpdateAt(rows, i, release, p, digest, now)
    case Insert =>
      var row := NewRow(rows, p, digest, listingId, now);
      if !ViolatesUnique(rows, row, None) then (rows + [row], Ok(true))
      else
        match FindPublished(rows, p)
        case None => (rows, Err(IntegrityError))
        case Some(i) => UpdateAt(rows, i, false, p, digest, now)
  }

  /** Upsert by key in one transaction; capacity is what the entitlement check of a runtime publication says. The
      flag of the result says whether a row was created. */
  function Publish(rows: seq<Listing>, agents: map<string, Agent>, p: Payload, actor: Actor, capacity: bool,
                   digest: string, listingId: string, now: string)
    : (seq<Listing>, Result<bool, Error>)
  {
    match Decide(rows, agents, p, actor, capacity)
    case Err(e) => (rows, Err(e))
    case Ok(plan) => CarryOut(rows, plan, p, digest, listingId, now)
  }

  /** Within one transaction the insert never finds another's row. */
  lemma PublishForm(rows: seq<Listing>, agents: map<string, Agent>, p: Payload, actor: Actor, capacity: bool,
                    digest: string, listingId: string, now: string)
    ensures var found := FindPublished(rows, p);
            Publish(rows, agents, p, actor, capacity, digest, listingId, now) ==
            if Decide(rows, agents, p, actor, capacity).Err? then
              (rows, Err(Decide(rows, agents, p, actor, capacity).error))
            else if found.None? then
              var row := NewRow(rows, p, digest, listingId, now);
              if ViolatesUnique(rows, row, None) then (rows, Err(IntegrityError)) else (rows + [row], Ok(true))
            else
              var row := Refreshed(rows[found.value], p, digest, now);
              if ViolatesUnique(rows, row, found) then (rows, Err(IntegrityError))
              else (rows[found.value := Republished(rows[found.value], p, digest, now)], Ok(false))
  {
  }

  function Withdraw(rows: seq<Listing>, listingId: string, merchant: string, now: string)
    : (seq<Listing>, Result<(), Error>)
  {
    match FindListing(rows, listingId)
    case None => (rows, Err(NotFoundError))
    case Some(i) =>
      if rows[i].merchant != merchant then (rows, Err(PermissionDenied))
      else if rows[i].state == Withdrawn then (rows, Ok(()))
      else (rows[i := rows[i].(state := Withdrawn, updatedAt := now)], Ok(()))
  }

  /** hasAccount says whether the merchant has an account, so that its capacity is checked. */
  function Reinstate(rows: seq<Listing>, agents: map<string, Agent>, listingId: string, actor: Actor, merchant: string,
                     hasAccount: bool, capacity: bool, now: string)
    : (seq<Listing>, Result<(), Error>)
  {
    match FindListing(rows, listingId)
    case None => (rows, Err(NotFoundError))
    case Some(i) =>
      var r := rows[i];
      if r.merchant != merchant || r.state != Suspended || r.hold == QUARANTINE_HOLD then (rows, Err(PermissionDenied))
      else if r.hold == GOVERNANCE_HOLD && actor != Admin then (rows, Err(PermissionDenied))
      else if OwnerError(agents, r.owner, merchant).Some? then (rows, Err(OwnerError(agents, r.owner, merchant).value))
      else if hasAccount && !capacity then (rows, Err(CapacityExceeded))
      else
        var hold := if r.hold == GOVERNANCE_HOLD then NO_HOLD else r.hold;
        (rows[i := r.(hold := hold, state := Active, updatedAt := now)], Ok(()))
  }

  function SuspendRow(r: Listing, owner: string, now: string): Listing {
    if r.owner == owner && r.state == Active
    then r.(state := Suspended, hold := GOVERNANCE_HOLD, updatedAt := now) else r
  }

  function SuspendOwned(rows: seq<Listing>, owner: string, now: string): (result: seq<Listing>)
    ensures |result| == |rows| && forall i :: 0 <= i < |rows| ==> result[i] == SuspendRow(rows[i], owner, now)
  {
    seq(|rows|, i requires 0 <= i < |rows| => SuspendRow(rows[i], owner, now))
  }

  // ---------------------------------------------------------------- the operations on the table

  method SelectByKey(table: ListingTable, listingType: ListingType, owner: string, key: string)
    returns (found: Option<nat>)
    ensures found == FindByKey(table.rows, listingType, owner, key)
  {
    found := None;
    for i := 0 to |table.rows|
      invariant found == FindByKey(table.rows[..i], listingType, owner, key)
    {
      assert table.rows[..i + 1][..i] == table.rows[..i];
      var later := found.None? || table.rows[i].id > table.rows[found.value].id;
      if HasKey(table.rows[i], listingType, owner, key) && later {
        found := Some(i);
      }
    }
    assert table.rows[..|table.rows|] == table.rows;
  }

  method DecidePublish(table: ListingTable, p: Payload, actor: Actor, capacity: bool)
    returns (plan: Result<Plan, Error>)
    ensures plan == Decide(table.rows, table.agents, p, actor, capacity)
  {
    var ownerError := OwnerError(table.agents, p.owner, p.merchant);
    if ownerError.Some? {
      return Err(ownerError.value);
    }
    var key := UpsertKey(p);
    var found := None;
    if key.Some? {
      found := SelectByKey(table, p.listingType, p.owner, key.value);
    }
    if found.Some? && table.rows[found.value].hold == GOVERNANCE_HOLD {
      return Err(PermissionDenied);
    }
    var releaseQuarantine := found.Some? && table.rows[found.value].hold == QUARANTINE_HOLD;
    if actor == Runtime && !capacity {
      return Err(CapacityExceeded);
    }
    return Ok(if found.None? then Insert else UpdateRow(found.value, releaseQuarantine));
  }

  method UpdateListing(table: ListingTable, i: nat, release: bool, p: Payload, digest: string, now: string)
    returns (result: Result<bool, Error>)
    requires i < |table.rows|
    modifies table`rows
    ensures (table.rows, result) == UpdateAt(old(table.rows), i, release, p, digest, now)
  {
    var row := table.rows[i];
    var updated := row.(sourceRef := p.sourceRef, publisherKey := p.publisherKey, content := p.content,
                        digest := digest, state := Active, freshness := Fresh,
                        publishedAt := if row.publishedAt == "" then now else row.publishedAt,
                        updatedAt := now, freshUntil := p.freshUntil);
    if ViolatesUnique(table.rows, updated, Some(i)) {
      return Err(IntegrityError);
    }
    table.rows := table.rows[i := updated];
    if release && table.rows[i].hold == QUARANTINE_HOLD {
      table.rows := table.rows[i := table.rows[i].(hold := NO_HOLD, state := Active)];
    }
    assert table.rows == old(table.rows)[i := table.rows[i]];
    return Ok(false);
  }

  method CarryOutPublish(table: ListingTable, plan: Plan, p: Payload, digest: string, listingId: string, now: string)
    returns (result: Result<bool, Error>)
    requires plan.UpdateRow? ==> plan.i < |table.rows|
    modifies table`rows
    ensures (table.rows, result) == CarryOut(old(table.rows), plan, p, digest, listingId, now)
  {
    if plan.UpdateRow? {
      result := UpdateListing(table, plan.i, plan.release, p, digest, now);
      return;
    }
    var row := NewRow(table.rows, p, digest, listingId, now);
    if !ViolatesUnique(table.rows, row, None) {
      table.rows := table.rows + [row];
      return Ok(true);
    }
    var raced := None;
    if UpsertKey(p).Some? {
      raced := SelectByKey(table, p.listingType, p.owner, UpsertKey(p).value);
    }
    if raced.None? {
      return Err(IntegrityError);
    }
    result := UpdateListing(table, raced.value, false, p, digest, now);
  }

  method PublishListing(table: ListingTable, p: Payload, actor: Actor, capacity: bool, digest: string,
                        listingId: string, now: string)
    returns (result: Result<bool, Error>)
    modifies table`rows
    ensures (table.rows, result) == Publish(old(table.rows), table.agents, p, actor, capacity, digest, listingId, now)
  {
    var plan := DecidePublish(table, p, actor, capacity);
    match plan
    case Err(e) => return Err(e);
    case Ok(todo) => result := CarryOutPublish(table, todo, p, digest, listingId, now);
  }

  method WithdrawListing(table: ListingTable, listingId: string, merchant: string, now: string)
    returns (result: Result<(), Error>)
    modifies table`rows
    ensures (table.rows, result) == Withdraw(old(table.rows), listingId, merchant, now)
    ensures result.Err? ==> table.rows == old(table.rows)
    ensures result == Err(NotFoundError) <==>
            forall i :: 0 <= i < |old(table.rows)| ==> old(table.rows)[i].listingId != listingId
    ensures result.Err? && result.error != NotFoundError ==>
              && result.error == PermissionDenied
              && exists i :: 0 <= i < |old(table.rows)| && old(table.rows)[i].listingId == listingId
                             && old(table.rows)[i].merchant != merchant
    ensures result.Ok? ==>
              exists i :: && 0 <= i < |old(table.rows)| && old(table.rows)[i].listingId == listingId
                          && old(table.rows)[i].merchant == merchant && table.rows[i].state == Withdrawn
                          && table.rows == old(table.rows)[i := if old(table.rows)[i].state == Withdrawn
                                                                then old(table.rows)[i]
                                                                else old(table.rows)[i].(state := Withdrawn,
                                                                                         updatedAt := now)]
  {
    var found := FindListing(table.rows, listingId);
    if found.None? {
      return Err(NotFoundError);
    }
    var i := found.value;
    if table.rows[i].merchant != merchant {
      return Err(PermissionDenied);
    }
    if table.rows[i].state != Withdrawn {
      table.rows := table.rows[i := table.rows[i].(state := Withdrawn, updatedAt := now)];
    }
    return Ok(());
  }

  method ReinstateListing(table: ListingTable, listingId: string, actor: Actor, merchant: string, hasAccount: bool,
                          capacity: bool, now: string)
    returns (result: Result<(), Error>)
    modifies table`rows
    ensures (table.rows, result) ==
            Reinstate(old(table.rows), table.agents, listingId, actor, merchant, hasAccount, capacity, now)
  {
    var found := FindListing(table.rows, listingId);
    if found.None? {
      return Err(NotFoundError);
    }
    var i := found.value;
    var row := table.rows[i];
    if row.merchant != merchant || row.state != Suspended {
      return Err(PermissionDenied);
    }
    if row.hold == QUARANTINE_HOLD {
      return Err(PermissionDenied);
    }
    if row.hold == GOVERNANCE_HOLD && actor != Admin {
      return Err(PermissionDenied);
    }
    var ownerError := OwnerError(table.agents, row.owner, merchant);
    if ownerError.Some? {
      return Err(ownerError.value);
    }
    if hasAccount && !capacity {
      return Err(CapacityExceeded);
    }
    if row.hold == GOVERNANCE_HOLD {
      table.rows := table.rows[i := table.rows[i].(hold := NO_HOLD)];
    }
    table.rows := table.rows[i := table.rows[i].(state := Active, updatedAt := now)];
    assert table.rows == old(table.rows)[i := table.rows[i]];
    return Ok(());
  }

  /** Exactly the ACTIVE listings of the owner are suspended under a governance hold, with updated_at set to now;
      nothing else about them changes, and no other row does. */
  method SuspendOwnedListings(table: ListingTable, owner: string, now: string)
    modifies table`rows
    ensures |table.rows| == |old(table.rows)|
    ensures forall i :: 0 <= i < |table.rows| ==>
              var r := old(table.rows)[i];
              table.rows[i] == if r.owner == owner && r.state == Active
                               then r.(state := Suspended, hold := GOVERNANCE_HOLD, updatedAt := now) else r
    ensures forall i :: 0 <= i < |table.rows| && table.rows[i].owner == owner ==> table.rows[i].state != Active
    ensures table.rows == SuspendOwned(old(table.rows), owner, now)
  {
    table.rows := SuspendOwned(table.rows, owner, now);
  }

  // ---------------------------------------------------------------- runs

  datatype State = State(rows: seq<Listing>, agents: map<string, Agent>)

  /** ChangeAgent is any change to an agent; suspending one also suspends its listings in the same transaction. */
  datatype Event =
    | PublishEvent(p: Payload, actor: Actor, capacity: bool, digest: string, listingId: string, now: string)
    | WithdrawEvent(listingId: string, merchant: string, now: string)
    | ReinstateEvent(listingId: string, actor: Actor, merchant: string, hasAccount: bool, capacity: bool, now: string)
    | ExpireEvent(now: string)
    | ChangeAgent(owner: string, agent: Agent, now: string)

  function Next(s: State, e: Event): State {
    match e
    case PublishEvent(p, actor, capacity, digest, listingId, now) =>
      s.(rows := Publish(s.rows, s.agents, p, actor, capacity, digest, listingId, now).0)
    case WithdrawEvent(listingId, merchant, now) => s.(rows := Withdraw(s.rows, listingId, merchant, now).0)
    case ReinstateEvent(listingId, actor, merchant, hasAccount, capacity, now) =>
      s.(rows := Reinstate(s.rows, s.agents, listingId, actor, merchant, hasAccount, capacity, now).0)
    case ExpireEvent(now) => s.(rows := Expired(s.rows, now))
    case ChangeAgent(owner, agent, now) =>
      State(if agent.admin == AgentSuspended then SuspendOwned(s.rows, owner, now) else s.rows,
            s.agents[owner := agent])
  }

  function At(s: State, run: seq<Event>, n: nat): State
    requires n <= |run|
  {
    if n == 0 then s else Next(At(s, run, n - 1), run[n - 1])
  }

  /** Every publish payload went through validation. */
  ghost predicate Validated(run: seq<Event>) {
    forall i :: 0 <= i < |run| && run[i].PublishEvent? ==> Contract(run[i].p)
  }

  // ---------------------------------------------------------------- what a step does to a row

  /** Rows are kept in place and keep their identity. */
  ghost predicate SameListing(a: Listing, b: Listing) {
    && a.id == b.id && a.listingId == b.listingId && a.owner == b.owner && a.listingType == b.listingType
    && a.merchant == b.merchant
  }

  /** How a step may change a row that was there. */
  ghost predicate RowStep(s: State, e: Event, a: Listing, b: Listing) {
    && SameListing(a, b)
    && (b.state == Active && a.state != Active ==>
          && OwnerError(s.agents, a.owner, if e.PublishEvent? then e.p.merchant else a.merchant).None?
          && (e.PublishEvent? || (e.ReinstateEvent? && a.state == Suspended))
          && b.hold == (if a.hold == QUARANTINE_HOLD || a.hold == GOVERNANCE_HOLD then NO_HOLD else a.hold))
    && (a.hold == GOVERNANCE_HOLD && b.hold != GOVERNANCE_HOLD ==>
          e.ReinstateEvent? && e.actor == Admin && a.state == Suspended && e.listingId == a.listingId)
    && (b.hold != a.hold ==> b.hold == NO_HOLD || (b.hold == GOVERNANCE_HOLD && b.state == Suspended))
  }

  ghost predicate Grows(s: State, e: Event) {
    var t := Next(s, e);
    && |s.rows| <= |t.rows| <= |s.rows| + 1
    && (forall i :: 0 <= i < |s.rows| ==> RowStep(s, e, s.rows[i], t.rows[i]))
    && (|t.rows| > |s.rows| ==> e.PublishEvent? && OwnerError(s.agents, e.p.owner, e.p.merchant).None?
                                && t.rows[|s.rows|] == NewRow(s.rows, e.p, e.digest, e.listingId, e.now))
  }

  ghost predicate Holds(s: State) {
    && (forall i :: 0 <= i < |s.rows| ==> NO_HOLD <= s.rows[i].hold <= QUARANTINE_HOLD)
    && (forall i :: 0 <= i < |s.rows| && s.rows[i].state == Active ==> s.rows[i].hold == NO_HOLD)
  }

  lemma PublishGrows(s: State, e: Event)
    requires Holds(s) && e.PublishEvent?
    ensures Grows(s, e)
  {
    PublishForm(s.rows, s.agents, e.p, e.actor, e.capacity, e.digest, e.listingId, e.now);
    var t, found := Next(s, e), FindPublished(s.rows, e.p);
    forall i | 0 <= i < |s.rows| ensures RowStep(s, e, s.rows[i], t.rows[i]) {
      assert t.rows[i] != s.rows[i] ==> found == Some(i) && t.rows[i] == Republished(s.rows[i], e.p, e.digest, e.now);
    }
  }

  lemma NextGrows(s: State, e: Event)
    requires Holds(s)
    ensures Grows(s, e)
  {
    if e.PublishEvent? {
      PublishGrows(s, e);
      return;
    }
    var t := Next(s, e);
    forall i | 0 <= i < |s.rows| ensures RowStep(s, e, s.rows[i], t.rows[i]) {
    }
  }

  /** An ACTIVE listing carries no hold. */
  lemma NextHolds(s: State, e: Event)
    requires Holds(s)
    ensures Holds(Next(s, e))
  {
    NextGrows(s, e);
    var t := Next(s, e);
    forall i | 0 <= i < |t.rows|
      ensures NO_HOLD <= t.rows[i].hold <= QUARANTINE_HOLD && (t.rows[i].state == Active ==> t.rows[i].hold == NO_HOLD)
    {
      if i < |s.rows| {
        assert RowStep(s, e, s.rows[i], t.rows[i]);
      }
    }
  }

  /** A suspended agent has no ACTIVE listing. */
  ghost predicate SuspendedOwnersAreOut(s: State) {
    forall i :: 0 <= i < |s.rows| && s.rows[i].state == Active && s.rows[i].owner in s.agents ==>
      s.agents[s.rows[i].owner].admin != AgentSuspended
  }

  lemma NextSuspendedOut(s: State, e: Event)
    requires Holds(s) && SuspendedOwnersAreOut(s)
    ensures SuspendedOwnersAreOut(Next(s, e))
  {
    NextGrows(s, e);
    var t := Next(s, e);
    forall i | 0 <= i < |t.rows| && t.rows[i].state == Active && t.rows[i].owner in t.agents
      ensures t.agents[t.rows[i].owner].admin != AgentSuspended
    {
      if i < |s.rows| {
        assert RowStep(s, e, s.rows[i], t.rows[i]);
      }
    }
  }

  /** In every run an ACTIVE listing has hold 0 and an owner that is not suspended. */
  lemma {:induction false} ActiveListingsAreClear(s: State, run: seq<Event>, n: nat)
    requires n <= |run| && Holds(s) && SuspendedOwnersAreOut(s)
    ensures Holds(At(s, run, n)) && SuspendedOwnersAreOut(At(s, run, n))
  {
    if n > 0 {
      ActiveListingsAreClear(s, run, n - 1);
      NextHolds(At(s, run, n - 1), run[n - 1]);
      NextSuspendedOut(At(s, run, n - 1), run[n - 1]);
    }
  }

  /** In every run: a listing becomes ACTIVE only by a publish or a reinstate while its owner is neither suspended
      nor rejected; and a governance hold goes away only by an administrator's reinstate of that listing. */
  lemma ActivationAndRelease(s: State, run: seq<Event>, n: nat, i: nat, before: State, after: State)
    requires n < |run| && Holds(s) && SuspendedOwnersAreOut(s)
    requires before == At(s, run, n) && after == At(s, run, n + 1) && i < |after.rows|
    ensures after.rows[i].state == Active && (i < |before.rows| ==> before.rows[i].state != Active) ==>
              && (run[n].PublishEvent? || run[n].ReinstateEvent?)
              && after.rows[i].owner in before.agents && !before.agents[after.rows[i].owner].Blocked()
    ensures i < |before.rows| && before.rows[i].hold == GOVERNANCE_HOLD && after.rows[i].hold != GOVERNANCE_HOLD ==>
              run[n].ReinstateEvent? && run[n].actor == Admin && run[n].listingId == after.rows[i].listingId
  {
    ActiveListingsAreClear(s, run, n);
    NextGrows(before, run[n]);
    if i < |before.rows| {
      assert RowStep(before, run[n], before.rows[i], after.rows[i]);
    }
  }

  /** Rejecting an agent leaves its listings ACTIVE in the table, unlike suspending it; in both cases no search
      finds any of them from then on. */
  lemma BlockingHidesListings(s: State, owner: string, agent: Agent, now: string, q: ListingSearch.Query,
                              shareCode: string -> bool, i: nat)
    requires agent.Blocked() && i < |s.rows| && s.rows[i].owner == owner && s.rows[i].state == Active
    ensures var t := Next(s, ChangeAgent(owner, agent, now));
            && i < |t.rows| && t.rows[i].state == (if agent.admin == AgentRejected then Active else Suspended)
            && !ListingSearch.Matches(ListingSearch.Snapshot(t.rows, t.agents, shareCode), q, t.rows[i])
  {
  }

  // ---------------------------------------------------------------- withdrawn under a hold

  /** A listing withdrawn while under a governance hold. */
  predicate Stuck(r: Listing) { r.state == Withdrawn && r.hold == GOVERNANCE_HOLD }

  lemma NextStuck(s: State, e: Event, i: nat)
    requires Holds(s) && i < |s.rows| && Stuck(s.rows[i])
    ensures i < |Next(s, e).rows| && Stuck(Next(s, e).rows[i])
  {
    NextGrows(s, e);
    assert RowStep(s, e, s.rows[i], Next(s, e).rows[i]);
    if e.PublishEvent? {
      PublishForm(s.rows, s.agents, e.p, e.actor, e.capacity, e.digest, e.listingId, e.now);
    }
    assert e.PublishEvent? || e.ReinstateEvent? ==> Next(s, e).rows[i] == s.rows[i];
  }

  /** Withdrawing a governance-held listing is final: no publish, no reinstate, not even by an administrator, and
      no sequence of events ever makes it ACTIVE again. */
  lemma {:induction false} WithdrawnUnderHoldIsFinal(s: State, run: seq<Event>, n: nat, i: nat)
    requires n <= |run| && Holds(s) && SuspendedOwnersAreOut(s) && i < |s.rows| && Stuck(s.rows[i])
    ensures i < |At(s, run, n).rows| && Stuck(At(s, run, n).rows[i])
  {
    if n > 0 {
      WithdrawnUnderHoldIsFinal(s, run, n - 1, i);
      ActiveListingsAreClear(s, run, n - 1);
      NextStuck(At(s, run, n - 1), run[n - 1], i);
    }
  }

  // ---------------------------------------------------------------- one row per upsert key

  /** The row's own upsert key, in the column that belongs to its type. */
  predicate KeyShaped(r: Listing) {
    match r.listingType
    case Product => Filled(r.sourceRef) && r.publisherKey.None?
    case Capability => r.sourceRef.None? && (r.publisherKey.None? || Filled(r.publisherKey))
  }

  function RowKey(r: Listing): Option<string> { if r.sourceRef.Some? then r.sourceRef else r.publisherKey }

  predicate SameKey(a: Listing, b: Listing) {
    a.owner == b.owner && a.listingType == b.listingType && RowKey(a).Some? && RowKey(a) == RowKey(b)
  }

  /** (owner, type, upsert key) is unique. */
  ghost predicate KeysUnique(rows: seq<Listing>) {
    forall i, j :: 0 <= i < j < |rows| ==> !SameKey(rows[i], rows[j])
  }

  ghost predicate Keyed(rows: seq<Listing>) {
    (forall i :: 0 <= i < |rows| ==> KeyShaped(rows[i])) && KeysUnique(rows)
  }

  /** A row that only changes in columns other than its keys keeps the table keyed. */
  lemma SameKeysKeyed(rows: seq<Listing>, after: seq<Listing>)
    requires Keyed(rows) && |after| == |rows|
    requires forall i :: 0 <= i < |rows| ==>
               && after[i].owner == rows[i].owner && after[i].listingType == rows[i].listingType
               && after[i].sourceRef == rows[i].sourceRef && after[i].publisherKey == rows[i].publisherKey
    ensures Keyed(after)
  {
  }

  lemma InsertKeyed(rows: seq<Listing>, row: Listing)
    requires Keyed(rows) && KeyShaped(row) && forall i :: 0 <= i < |rows| ==> !Collides(rows[i], row)
    ensures Keyed(rows + [row])
  {
    forall i | 0 <= i < |rows| ensures !SameKey(rows[i], row) {
      assert !Collides(rows[i], row);
    }
  }

  /** The second half of a publish keeps upsert keys unique even when others have written in between. */
  lemma CarryOutKeyed(rows: seq<Listing>, plan: Plan, p: Payload, digest: string, listingId: string, now: string)
    requires Keyed(rows) && Contract(p)
    requires plan.UpdateRow? ==>
               && plan.i < |rows| && UpsertKey(p).Some?
               && HasKey(rows[plan.i], p.listingType, p.owner, UpsertKey(p).value)
    ensures Keyed(CarryOut(rows, plan, p, digest, listingId, now).0)
  {
    var row := NewRow(rows, p, digest, listingId, now);
    if plan.Insert? && !ViolatesUnique(rows, row, None) {
      InsertKeyed(rows, row);
    } else {
      var target := if plan.Insert? then FindPublished(rows, p) else Some(plan.i);
      if target.Some? {
        assert KeyShaped(rows[target.value]);
        SameKeysKeyed(rows, CarryOut(rows, plan, p, digest, listingId, now).0);
      }
    }
  }

  lemma PublishKeyed(rows: seq<Listing>, agents: map<string, Agent>, p: Payload, actor: Actor, capacity: bool,
                     digest: string, listingId: string, now: string)
    requires Keyed(rows) && Contract(p)
    ensures Keyed(Publish(rows, agents, p, actor, capacity, digest, listingId, now).0)
  {
    var plan := Decide(rows, agents, p, actor, capacity);
    if plan.Ok? {
      CarryOutKeyed(rows, plan.value, p, digest, listingId, now);
    }
  }

  lemma NextKeyed(s: State, e: Event)
    requires Keyed(s.rows) && (e.PublishEvent? ==> Contract(e.p))
    ensures Keyed(Next(s, e).rows)
  {
    match e
    case PublishEvent(p, actor, capacity, digest, listingId, now) =>
      PublishKeyed(s.rows, s.agents, p, actor, capacity, digest, listingId, now);
    case _ => SameKeysKeyed(s.rows, Next(s, e).rows);
  }

  /** In every run of validated publishes, (owner, type, upsert key) stays unique. */
  lemma {:induction false} KeysStayUnique(s: State, run: seq<Event>, n: nat)
    requires n <= |run| && Validated(run) && Keyed(s.rows)
    ensures Keyed(At(s, run, n).rows)
  {
    if n > 0 {
      KeysStayUnique(s, run, n - 1);
      NextKeyed(At(s, run, n - 1), run[n - 1]);
    }
  }

  /** A validated publish never runs into the unique indexes by its key, so within a transaction it creates or
      updates exactly one row. */
  lemma ValidatedPublishFindsItsRow(rows: seq<Listing>, p: Payload, digest: string, listingId: string, now: string)
    requires Keyed(rows) && Contract(p) && UpsertKey(p).Some?
    ensures var found := FindPublished(rows, p);
            if found.Some? then RowKey(rows[found.value]) == UpsertKey(p)
            else forall i :: 0 <= i < |rows| ==> !Collides(rows[i], NewRow(rows, p, digest, listingId, now))
    ensures var found := FindPublished(rows, p);
            found.Some? ==> forall i :: 0 <= i < |rows| && i != found.value ==>
                              !Collides(rows[i], Refreshed(rows[found.value], p, digest, now))
  {
    var found := FindPublished(rows, p);
    if found.Some? {
      var row := Refreshed(rows[found.value], p, digest, now);
      assert KeyShaped(rows[found.value]);
      forall i | 0 <= i < |rows| && i != found.value ensures !Collides(rows[i], row) {
        assert KeyShaped(rows[i]);
        assert !SameKey(rows[i], rows[found.value]) && !SameKey(rows[found.value], rows[i]);
      }
    }
  }

  /** The row carries what the payload says, is public and has no hold. */
  predicate Carries(r: Listing, p: Payload, digest: string, now: string) {
    && r.owner == p.owner && r.listingType == p.listingType
    && r.sourceRef == p.sourceRef && r.publisherKey == p.publisherKey
    && r.content == p.content && r.digest == digest
    && r.freshUntil == p.freshUntil && r.updatedAt == now
    && r.state == Active && r.hold == NO_HOLD && r.freshness == Fresh
  }

  lemma FoundIsOnly(rows: seq<Listing>, p: Payload, i: nat)
    requires Keyed(rows) && Contract(p) && UpsertKey(p).Some?
    requires i < |rows| && HasKey(rows[i], p.listingType, p.owner, UpsertKey(p).value)
    ensures FindPublished(rows, p) == Some(i)
  {
    var j := FindPublished(rows, p).value;
    assert KeyShaped(rows[i]) && KeyShaped(rows[j]);
    assert i < j ==> !SameKey(rows[i], rows[j]);
    assert j < i ==> !SameKey(rows[j], rows[i]);
  }

  /** A successful publish with a key leaves exactly one row of that key: it carries the payload, it was created
      if and only if there was none, an older one keeps its first publication time, and no other row is touched. */
  lemma PublishIsUpsert(rows: seq<Listing>, agents: map<string, Agent>, p: Payload, actor: Actor, capacity: bool,
                        digest: string, listingId: string, now: string)
    requires Keyed(rows) && Holds(State(rows, agents)) && Contract(p) && UpsertKey(p).Some?
    requires Publish(rows, agents, p, actor, capacity, digest, listingId, now).1.Ok?
    ensures var (after, result) := Publish(rows, agents, p, actor, capacity, digest, listingId, now);
            var before, found := FindPublished(rows, p), FindPublished(after, p);
            && found.Some? && Carries(after[found.value], p, digest, now)
            && result.value == before.None? && found == (if before.None? then Some(|rows|) else before)
            && after[found.value].publishedAt ==
               (if before.None? || rows[before.value].publishedAt == "" then now else rows[before.value].publishedAt)
            && |after| == |rows| + (if before.None? then 1 else 0)
            && (forall i :: 0 <= i < |rows| && Some(i) != before ==> after[i] == rows[i])
            && (if before.Some? then SameListing(rows[before.value], after[found.value])
                else after[found.value].listingId == listingId && after[found.value].merchant == p.merchant)
  {
    var after := Publish(rows, agents, p, actor, capacity, digest, listingId, now).0;
    var before := FindPublished(rows, p);
    PublishForm(rows, agents, p, actor, capacity, digest, listingId, now);
    PublishKeyed(rows, agents, p, actor, capacity, digest, listingId, now);
    FoundIsOnly(after, p, if before.None? then |rows| else before.value);
  }

  // ---------------------------------------------------------------- a publish that is overtaken

  /** The row that the second half of a publish refreshes, if any. */
  function Target(rows: seq<Listing>, plan: Plan, p: Payload, digest: string, listingId: string, now: string)
    : Option<nat>
    requires plan.UpdateRow? ==> plan.i < |rows|
  {
    var target :=
      if plan.UpdateRow? then Some(plan.i)
      else if ViolatesUnique(rows, NewRow(rows, p, digest, listingId, now), None) then FindPublished(rows, p)
      else None;
    if target.Some? && ViolatesUnique(rows, Refreshed(rows[target.value], p, digest, now), target) then None else target
  }

  /** If others write between the two halves, the second one does not look at the hold again: then it keeps
      "ACTIVE means hold 0" exactly when the row it refreshes is under no hold, or under the quarantine that it
      set out to release. */
  lemma OvertakenPublishKeepsHoldsIff(rows: seq<Listing>, agents: map<string, Agent>, plan: Plan, p: Payload,
                                      digest: string, listingId: string, now: string)
    requires Holds(State(rows, agents)) && (plan.UpdateRow? ==> plan.i < |rows|)
    ensures var target := Target(rows, plan, p, digest, listingId, now);
            Holds(State(CarryOut(rows, plan, p, digest, listingId, now).0, agents)) <==>
            || target.None?
            || rows[target.value].hold == NO_HOLD
            || (rows[target.value].hold == QUARANTINE_HOLD && plan.UpdateRow? && plan.release)
  {
    var target := Target(rows, plan, p, digest, listingId, now);
    var after := CarryOut(rows, plan, p, digest, listingId, now).0;
    if target.Some? {
      var row := after[target.value];
      assert row.state == Active;
      assert after == rows[target.value := row];
    }
  }

  /** A publish in one transaction always meets that condition. */
  lemma OwnPlanIsSafe(rows: seq<Listing>, agents: map<string, Agent>, p: Payload, actor: Actor, capacity: bool,
                      digest: string, listingId: string, now: string)
    requires Holds(State(rows, agents)) && Decide(rows, agents, p, actor, capacity).Ok?
    ensures var plan := Decide(rows, agents, p, actor, capacity).value;
            var target := Target(rows, plan, p, digest, listingId, now);
            && target == (if plan.Insert? || ViolatesUnique(rows, Refreshed(rows[plan.i], p, digest, now), Some(plan.i))
                          then None else Some(plan.i))
            && (target.Some? ==> rows[plan.i].hold == NO_HOLD || (rows[plan.i].hold == QUARANTINE_HOLD && plan.release))
  {
  }

  // ---------------------------------------------------------------- why the payload shape matters

  /** A reference only, as validation has it, and a reference together with a key, which validation refuses. */
  function PlainPayload(owner: string, merchant: string, q: string): Payload {
    Payload(Product, owner, merchant, Some(q), None, "", "")
  }

  function MixedPayload(owner: string, merchant: string, x: string, q: string): Payload {
    Payload(Product, owner, merchant, Some(x), Some(q), "", "")
  }

  function OneRow(p: Payload, listingId: string, now: string): seq<Listing> { [NewRow([], p, "", listingId, now)] }

  lemma FirstPublishInserts(agents: map<string, Agent>, p: Payload, listingId: string, now: string)
    requires OwnerError(agents, p.owner, p.merchant).None?
    ensures Publish([], agents, p, Publisher, true, "", listingId, now) == (OneRow(p, listingId, now), Ok(true))
  {
    assert FindPublished([], p) == None;
    assert [] + OneRow(p, listingId, now) == OneRow(p, listingId, now);
  }

  lemma SecondPublishInserts(agents: map<string, Agent>, row: Listing, p: Payload, listingId: string, now: string)
    requires OwnerError(agents, p.owner, p.merchant).None? && UpsertKey(p).Some?
    requires !HasKey(row, p.listingType, p.owner, UpsertKey(p).value)
    requires !Collides(row, NewRow([row], p, "", listingId, now)) && row.listingId != listingId
    ensures Publish([row], agents, p, Publisher, true, "", listingId, now)
         == ([row] + [NewRow([row], p, "", listingId, now)], Ok(true))
  {
    assert FindPublished([row], p) == None;
    assert !ViolatesUnique([row], NewRow([row], p, "", listingId, now), None);
  }

  /** Two payloads that no public writer lets through together show one way in which the rule would fail without
      validation: publish reference q, then reference x with key q. The lookup merges two columns that the indexes
      keep apart, and two rows answer to q. */
  lemma MixedKeysBreakUniqueness(agents: map<string, Agent>, owner: string, merchant: string, q: string, x: string,
                                 first: string, second: string, now: string)
    requires OwnerError(agents, owner, merchant).None? && q != "" && x != "" && q != x && first != second
    ensures Contract(PlainPayload(owner, merchant, q)) && !Contract(MixedPayload(owner, merchant, x, q))
    ensures Publish([], agents, PlainPayload(owner, merchant, q), Publisher, true, "", first, now)
         == (OneRow(PlainPayload(owner, merchant, q), first, now), Ok(true))
    ensures var one := OneRow(PlainPayload(owner, merchant, q), first, now);
            var added := NewRow(one, MixedPayload(owner, merchant, x, q), "", second, now);
            && Publish(one, agents, MixedPayload(owner, merchant, x, q), Publisher, true, "", second, now)
               == (one + [added], Ok(true))
            && HasKey(one[0], Product, owner, q) && HasKey(added, Product, owner, q)
  {
    FirstPublishInserts(agents, PlainPayload(owner, merchant, q), first, now);
    SecondPublishInserts(agents, OneRow(PlainPayload(owner, merchant, q), first, now)[0],
                         MixedPayload(owner, merchant, x, q), second, now);
  }
}
