/** Agent card revisions, activation by compare-and-set, publication state and the stable read. */
module CardStore {
  import opened Order
  import opened Wrappers
  import opened JsonValue
  import opened CardPublication

  // ---------------------------------------------------------------- storage text and etag

  predicate KeyBefore(a: Field<string>, b: Field<string>) { TextBefore(a.key, b.key) }

  /** What a card becomes when it is written with sorted keys and read back. */
  function Stored(v: Card): Card
    decreases Size(v), 0
  {
    match v
    case Arr(items) => Arr(StoredItems(items))
    case Obj(fields) => Obj(SortBy(KeyBefore, StoredFields(fields)))
    case _ => v
  }

  function StoredItems(items: seq<Card>): (r: seq<Card>)
    ensures |r| == |items|
    decreases SizeItems(items), 1
  {
    if items == [] then [] else [Stored(items[0])] + StoredItems(items[1..])
  }

  function StoredFields(fields: seq<Field<string>>): (r: seq<Field<string>>)
    ensures |r| == |fields| && forall i :: 0 <= i < |fields| ==> r[i].key == fields[i].key
    decreases SizeFields(fields), 1
  {
    if fields == [] then []
    else
      assert SizeField(fields[0]) == 1 + Size(fields[0].val);
      [Field(fields[0].key, Stored(fields[0].val))] + StoredFields(fields[1..])
  }

  ghost predicate KeysDiffer(fields: seq<Field<string>>) {
    forall i, j :: 0 <= i < j < |fields| ==> fields[i].key != fields[j].key
  }

  /** Objects are dictionaries: their keys are distinct, at every depth. */
  ghost predicate Dictionary(v: Card)
    decreases Size(v), 0
  {
    match v
    case Arr(items) => ItemsAreDictionaries(items)
    case Obj(fields) => KeysDiffer(fields) && FieldsAreDictionaries(fields)
    case _ => true
  }

  ghost predicate ItemsAreDictionaries(items: seq<Card>)
    decreases SizeItems(items), 1
  {
    items != [] ==> Dictionary(items[0]) && ItemsAreDictionaries(items[1..])
  }

  ghost predicate FieldsAreDictionaries(fields: seq<Field<string>>)
    decreases SizeFields(fields), 1
  {
    fields != [] ==>
      assert SizeField(fields[0]) == 1 + Size(fields[0].val);
      Dictionary(fields[0].val) && FieldsAreDictionaries(fields[1..])
  }

  lemma KeyStrictOrder()
    ensures StrictOrder(KeyBefore)
    ensures forall a: Field<string>, b: Field<string> :: a.key != b.key ==> KeyBefore(a, b) || KeyBefore(b, a)
  {
    TextStrictTotal();
  }

  lemma SortStable(fields: seq<Field<string>>)
    requires KeysDiffer(fields)
    ensures SortBy(KeyBefore, SortBy(KeyBefore, fields)) == SortBy(KeyBefore, fields)
  {
    var sorted := SortBy(KeyBefore, fields);
    KeyStrictOrder();
    SortSorted(KeyBefore, fields);
    assert Decides(KeyBefore, sorted);
    SortSorted(KeyBefore, sorted);
    SortMultiset(KeyBefore, sorted);
    SortedUnique(KeyBefore, SortBy(KeyBefore, sorted), sorted);
  }

  ghost predicate Fixed(fields: seq<Field<string>>) {
    forall f :: f in fields ==> Stored(f.val) == f.val
  }

  lemma {:induction false} FixedFields(fields: seq<Field<string>>)
    requires Fixed(fields)
    ensures StoredFields(fields) == fields
  {
    if fields != [] {
      assert fields[0] in fields;
      FixedFields(fields[1..]);
    }
  }

  /** Writing a stored card again changes nothing, so every etag computed from the stored text is that of the
      card as it was published. */
  lemma {:induction false} StoredTwice(v: Card)
    requires Dictionary(v)
    ensures Stored(Stored(v)) == Stored(v)
    decreases Size(v), 1
  {
    match v
    case Arr(items) => StoredItemsTwice(items);
    case Obj(fields) =>
      StoredFieldsTwice(fields);
      var inner := StoredFields(fields);
      var sorted := SortBy(KeyBefore, inner);
      SortMembers(KeyBefore, inner);
      FixedFields(sorted);
      SortStable(inner);
    case _ =>
  }

  lemma {:induction false} StoredItemsTwice(items: seq<Card>)
    requires ItemsAreDictionaries(items)
    ensures StoredItems(StoredItems(items)) == StoredItems(items)
    decreases SizeItems(items), 2
  {
    if items != [] {
      StoredTwice(items[0]);
      StoredItemsTwice(items[1..]);
      assert StoredItems(items)[1..] == StoredItems(items[1..]);
    }
  }

  lemma {:induction false} StoredFieldsTwice(fields: seq<Field<string>>)
    requires FieldsAreDictionaries(fields)
    ensures Fixed(StoredFields(fields))
    decreases SizeFields(fields), 2
  {
    if fields != [] {
      assert SizeField(fields[0]) == 1 + Size(fields[0].val);
      StoredTwice(fields[0].val);
      StoredFieldsTwice(fields[1..]);
    }
  }

  /** The keys of every object are in ascending order. */
  ghost predicate KeysAscend(v: Card)
    decreases Size(v), 0
  {
    match v
    case Arr(items) => ItemsAscend(items)
    case Obj(fields) =>
      && (forall i, j :: 0 <= i < j < |fields| ==> TextBefore(fields[i].key, fields[j].key))
      && FieldsAscend(fields)
    case _ => true
  }

  ghost predicate ItemsAscend(items: seq<Card>)
    decreases SizeItems(items), 1
  {
    items != [] ==> KeysAscend(items[0]) && ItemsAscend(items[1..])
  }

  ghost predicate FieldsAscend(fields: seq<Field<string>>)
    decreases SizeFields(fields), 1
  {
    fields != [] ==>
      assert SizeField(fields[0]) == 1 + Size(fields[0].val);
      KeysAscend(fields[0].val) && FieldsAscend(fields[1..])
  }

  lemma {:induction false} AllFieldsAscend(fields: seq<Field<string>>)
    requires forall f :: f in fields ==> KeysAscend(f.val)
    ensures FieldsAscend(fields)
  {
    if fields != [] {
      assert fields[0] in fields;
      AllFieldsAscend(fields[1..]);
    }
  }

  /** Stored cards have their keys in order at every depth. */
  lemma {:induction false} StoredAscends(v: Card)
    requires Dictionary(v)
    ensures KeysAscend(Stored(v))
    decreases Size(v), 1
  {
    match v
    case Arr(items) => StoredItemsAscend(items);
    case Obj(fields) =>
      var inner := StoredFields(fields);
      StoredFieldsAscend(fields);
      KeyStrictOrder();
      SortSorted(KeyBefore, inner);
      SortMembers(KeyBefore, inner);
      AllFieldsAscend(SortBy(KeyBefore, inner));
    case _ =>
  }

  lemma {:induction false} StoredItemsAscend(items: seq<Card>)
    requires ItemsAreDictionaries(items)
    ensures ItemsAscend(StoredItems(items))
    decreases SizeItems(items), 2
  {
    if items != [] {
      StoredAscends(items[0]);
      StoredItemsAscend(items[1..]);
      assert StoredItems(items)[1..] == StoredItems(items[1..]);
    }
  }

  lemma {:induction false} StoredFieldsAscend(fields: seq<Field<string>>)
    requires FieldsAreDictionaries(fields)
    ensures forall f :: f in StoredFields(fields) ==> KeysAscend(f.val)
    decreases SizeFields(fields), 2
  {
    if fields != [] {
      assert SizeField(fields[0]) == 1 + Size(fields[0].val);
      StoredAscends(fields[0].val);
      StoredFieldsAscend(fields[1..]);
    }
  }

  lemma {:induction false} LookupInStored(fields: seq<Field<string>>, key: string)
    ensures Lookup(StoredFields(fields), key) ==
            match Lookup(fields, key) case None => None case Some(v) => Some(Stored(v))
  {
    if fields != [] {
      assert StoredFields(fields)[1..] == StoredFields(fields[1..]);
      LookupInStored(fields[1..], key);
    }
  }

  /** With different keys a member is found wherever it stands. */
  lemma {:induction false} LookupMember(fields: seq<Field<string>>, f: Field<string>)
    requires KeysDiffer(fields) && f in fields
    ensures Lookup(fields, f.key) == Some(f.val)
  {
    if fields[0] != f {
      var i :| 0 <= i < |fields| && fields[i] == f;
      assert fields[0].key != fields[i].key;
      LookupMember(fields[1..], f);
    }
  }

  lemma {:induction false} LookupIsMember(fields: seq<Field<string>>, key: string)
    ensures Lookup(fields, key).Some? ==> Field(key, Lookup(fields, key).value) in fields
  {
    if fields != [] && fields[0].key != key {
      LookupIsMember(fields[1..], key);
    }
  }

  lemma SortDiffers(fields: seq<Field<string>>)
    requires KeysDiffer(fields)
    ensures KeysDiffer(SortBy(KeyBefore, fields))
  {
    var sorted := SortBy(KeyBefore, fields);
    KeyStrictOrder();
    SortSorted(KeyBefore, fields);
    forall i, j | 0 <= i < j < |sorted| ensures sorted[i].key != sorted[j].key {
      assert KeyBefore(sorted[i], sorted[j]);
      assert !TextBefore(sorted[i].key, sorted[i].key) by { TextStrictTotal(); }
    }
  }

  lemma SortKeepsLookup(fields: seq<Field<string>>, key: string)
    requires KeysDiffer(fields)
    ensures Lookup(SortBy(KeyBefore, fields), key) == Lookup(fields, key)
  {
    var sorted := SortBy(KeyBefore, fields);
    SortDiffers(fields);
    SortMembers(KeyBefore, fields);
    LookupIsMember(fields, key);
    LookupIsMember(sorted, key);
    if Lookup(fields, key).Some? {
      LookupMember(sorted, Field(key, Lookup(fields, key).value));
    }
    if Lookup(sorted, key).Some? {
      LookupMember(fields, Field(key, Lookup(sorted, key).value));
    }
  }

  /** And they hold just the members of the card, stored in their turn. */
  lemma StoredMembers(fields: seq<Field<string>>, key: string)
    requires KeysDiffer(fields)
    ensures Stored(Obj(fields)).Obj?
    ensures Lookup(Stored(Obj(fields)).fields, key) ==
            match Lookup(fields, key) case None => None case Some(v) => Some(Stored(v))
  {
    LookupInStored(fields, key);
    SortKeepsLookup(StoredFields(fields), key);
  }

  // ---------------------------------------------------------------- the tables

  datatype Version = Version(agent: string, revision: int, text: Card, digest: string)

  datatype PublicationState = Active | Paused | Withdrawn

  datatype Publication = Publication(active: int, state: PublicationState, etag: string)

  /** What a creation returns. */
  datatype Created = Created(revision: int, digest: string, etag: string)

  datatype Store = Store(agents: set<string>, versions: seq<Version>, publications: map<string, Publication>)

  function MaxRevision(versions: seq<Version>, agent: string): int {
    if versions == [] then 0
    else
      var rest := MaxRevision(versions[..|versions| - 1], agent);
      var last := versions[|versions| - 1];
      if last.agent == agent && last.revision > rest then last.revision else rest
  }

  function Find(versions: seq<Version>, agent: string, revision: int): Option<Version> {
    if versions == [] then None
    else if versions[0].agent == agent && versions[0].revision == revision then Some(versions[0])
    else Find(versions[1..], agent, revision)
  }

  predicate HasRevision(versions: seq<Version>, agent: string, revision: int) {
    exists i :: 0 <= i < |versions| && versions[i].agent == agent && versions[i].revision == revision
  }

  /** The first such revision is a card. */
  predicate HasCard(versions: seq<Version>, agent: string, revision: int) {
    exists i :: && 0 <= i < |versions| && versions[i].agent == agent && versions[i].revision == revision
                && versions[i].text.Obj?
                && forall j :: 0 <= j < i ==> versions[j].agent != agent || versions[j].revision != revision
  }

  lemma {:induction false} FindIsFirst(versions: seq<Version>, agent: string, revision: int)
    ensures match Find(versions, agent, revision)
            case None => !HasRevision(versions, agent, revision)
            case Some(v) =>
              exists i :: && 0 <= i < |versions| && versions[i] == v && v.agent == agent && v.revision == revision
                          && forall j :: 0 <= j < i ==> versions[j].agent != agent || versions[j].revision != revision
  {
    if versions != [] {
      FindIsFirst(versions[1..], agent, revision);
      if Find(versions, agent, revision).Some? && !(versions[0].agent == agent && versions[0].revision == revision) {
        var v := Find(versions, agent, revision).value;
        var i :| && 0 <= i < |versions| - 1 && versions[1..][i] == v
                 && forall j :: 0 <= j < i ==> versions[1..][j].agent != agent || versions[1..][j].revision != revision;
        forall j | 0 <= j < i + 1 ensures versions[j].agent != agent || versions[j].revision != revision {
          if j > 0 {
            assert versions[1..][j - 1] == versions[j];
          }
        }
        assert versions[i + 1] == v;
      }
    }
  }

  function ActiveRevision(s: Store, agent: string): int {
    if agent in s.publications then s.publications[agent].active else 0
  }

  /** The validators and digests that the store calls; hash is that of the sorted text of a card. */
  datatype World = World(checks: Checks, hash: Card -> string, shareCode: Card -> bool)

  function Etag(w: World, card: Card): string { w.hash(Stored(card)) }

  /** Creation holds the write lock since the nonce of its signature was stored. */
  function Create(w: World, s: Store, agent: string, publication: Card, bindings: seq<Binding>)
    : (Store, Result<Created, Error>)
  {
    if agent !in s.agents then (s, Err(NotFoundError))
    else
      match Verdict(w.checks, publication, agent, ActiveBinding(bindings, agent))
      case Some(error) => (s, Err(error))
      case None =>
        var card, digest := CardOf(publication).value, Digest(w.checks, publication.fields);
        var revision := MaxRevision(s.versions, agent) + 1;
        (s.(versions := s.versions + [Version(agent, revision, Stored(card), digest)]),
         Ok(Created(revision, digest, Etag(w, card))))
  }

  /** What an activation has read before it writes: the etag, and whether the agent has no publication yet. */
  datatype Plan = Plan(etag: string, first: bool)

  function PlanActivation(w: World, seen: Store, agent: string, revision: int, expected: int): Result<Plan, Error> {
    if agent !in seen.agents then Err(NotFoundError)
    else
      match Find(seen.versions, agent, revision)
      case None => Err(NotFoundError)
      case Some(version) =>
        if ActiveRevision(seen, agent) != expected then Err(ConflictError)
        else Ok(Plan(Etag(w, version.text), agent !in seen.publications))
  }

  /** The insert, or the update guarded by the expected revision. */
  function WriteActivation(s: Store, agent: string, revision: int, expected: int, plan: Plan)
    : (Store, Result<string, Error>)
  {
    var after := s.(publications := s.publications[agent := Publication(revision, Active, plan.etag)]);
    if plan.first then if agent in s.publications then (s, Err(IntegrityError)) else (after, Ok(plan.etag))
    else if agent !in s.publications || s.publications[agent].active != expected then (s, Err(ConflictError))
    else (after, Ok(plan.etag))
  }

  /** An activation that read in seen and writes in s; the two are one state when it already holds the lock. */
  function Activate(w: World, seen: Store, s: Store, agent: string, revision: int, expected: int)
    : (Store, Result<string, Error>)
  {
    match PlanActivation(w, seen, agent, revision, expected)
    case Err(error) => (s, Err(error))
    case Ok(plan) => WriteActivation(s, agent, revision, expected, plan)
  }

  /** What a state change has read before it writes; an unknown state is None. */
  function PlanState(seen: Store, agent: string, state: Option<PublicationState>, expected: int)
    : Result<PublicationState, Error>
  {
    if state.None? then Err(ValidationError)
    else if agent !in seen.publications then Err(NotFoundError)
    else if seen.publications[agent].active != expected then Err(ConflictError)
    else Ok(state.value)
  }

  /** The guarded update; nobody looks whether it found its row. */
  function WriteState(s: Store, agent: string, state: PublicationState, expected: int): Store {
    if agent !in s.publications || s.publications[agent].active != expected then s
    else s.(publications := s.publications[agent := s.publications[agent].(state := state)])
  }

  function SetState(seen: Store, s: Store, agent: string, state: Option<PublicationState>, expected: int)
    : (Store, Result<int, Error>)
  {
    match PlanState(seen, agent, state, expected)
    case Err(error) => (s, Err(error))
    case Ok(value) => (WriteState(s, agent, value, expected), Ok(expected))
  }

  function Read(w: World, s: Store, agent: string): Result<(Card, string, PublicationState), Error> {
    if agent !in s.agents || agent !in s.publications then Err(NotFoundError)
    else if s.publications[agent].state == Withdrawn then Err(GoneError)
    else
      match Find(s.versions, agent, s.publications[agent].active)
      case None => Err(NotFoundError)
      case Some(version) =>
        if !version.text.Obj? then Err(NotFoundError)
        else if w.shareCode(version.text) then Err(QuarantineError)
        else Ok((version.text, s.publications[agent].etag, s.publications[agent].state))
  }

  class CardTables {
    const world: World
    var agents: set<string>
    var versions: seq<Version>
    var publications: map<string, Publication>

    function View(): Store reads this { Store(agents, versions, publications) }

    constructor (world: World, agents: set<string>)
      ensures View() == Opened(agents) && this.world == world
    {
      this.world, this.agents, versions, publications := world, agents, [], map[];
    }

    /** select max(card_revision) for one agent. */
    method SelectMax(agent: string) returns (max: int)
      ensures max == MaxRevision(versions, agent)
      ensures forall i :: 0 <= i < |versions| && versions[i].agent == agent ==> versions[i].revision <= max
      ensures max == 0 || exists i :: 0 <= i < |versions| && versions[i].agent == agent && versions[i].revision == max
    {
      max := 0;
      for i := 0 to |versions|
        invariant max == MaxRevision(versions[..i], agent)
        invariant forall k :: 0 <= k < i && versions[k].agent == agent ==> versions[k].revision <= max
        invariant max == 0 || exists k :: 0 <= k < i && versions[k].agent == agent && versions[k].revision == max
      {
        assert versions[..i + 1][..i] == versions[..i];
        if versions[i].agent == agent && versions[i].revision > max {
          max := versions[i].revision;
        }
      }
      assert versions[..|versions|] == versions;
    }

    method CreateRevision(agent: string, publication: Card, bindings: seq<Binding>)
      returns (result: Result<Created, Error>)
      modifies this`versions
      ensures (View(), result) == Create(world, old(View()), agent, publication, bindings)
      ensures result.Err? ==> versions == old(versions)
      ensures result == Err(NotFoundError) <==> agent !in agents
      ensures result.Ok? ==>
                && |versions| == |old(versions)| + 1 && versions[..|old(versions)|] == old(versions)
                && versions[|old(versions)|].agent == agent
                && (forall i :: 0 <= i < |old(versions)| && versions[i].agent == agent ==>
                      versions[i].revision < versions[|old(versions)|].revision)
    {
      if agent !in agents {
        return Err(NotFoundError);
      }
      var checked := Validate(world.checks, publication, agent, ActiveBinding(bindings, agent));
      if checked.Err? {
        return Err(checked.error);
      }
      var (card, digest) := checked.value;
      var max := SelectMax(agent);
      versions := versions + [Version(agent, max + 1, Stored(card), digest)];
      return Ok(Created(max + 1, digest, Etag(world, card)));
    }

    /** The reads of an activation. */
    method BeginActivation(agent: string, revision: int, expected: int) returns (plan: Result<Plan, Error>)
      ensures plan == PlanActivation(world, View(), agent, revision, expected)
      ensures plan == Err(NotFoundError) <==> agent !in agents || !HasRevision(versions, agent, revision)
      ensures plan == Err(ConflictError) <==>
                && agent in agents && HasRevision(versions, agent, revision)
                && expected != if agent in publications then publications[agent].active else 0
      ensures plan.Err? ==> plan.error in {NotFoundError, ConflictError}
      ensures plan.Ok? ==> plan.value.first == (agent !in publications)
    {
      FindIsFirst(versions, agent, revision);
      if agent !in agents {
        return Err(NotFoundError);
      }
      var version := Find(versions, agent, revision);
      if version.None? {
        return Err(NotFoundError);
      }
      var current := if agent in publications then publications[agent].active else 0;
      if current != expected {
        return Err(ConflictError);
      }
      return Ok(Plan(Etag(world, version.value.text), agent !in publications));
    }

    /** Its write, which may find other rows than it read. */
    method EndActivation(agent: string, revision: int, expected: int, plan: Plan)
      returns (result: Result<string, Error>)
      modifies this`publications
      ensures (View(), result) == WriteActivation(old(View()), agent, revision, expected, plan)
      ensures result == Err(IntegrityError) <==> plan.first && agent in old(publications)
      ensures result == Err(ConflictError) <==>
              !plan.first && (agent !in old(publications) || old(publications)[agent].active != expected)
      ensures result.Ok? ==> publications == old(publications)[agent := Publication(revision, Active, plan.etag)]
      ensures result.Err? ==> publications == old(publications) && result.error in {IntegrityError, ConflictError}
    {
      if plan.first {
        if agent in publications {
          return Err(IntegrityError);
        }
      } else {
        if agent !in publications || publications[agent].active != expected {
          return Err(ConflictError);
        }
      }
      publications := publications[agent := Publication(revision, Active, plan.etag)];
      return Ok(plan.etag);
    }

    method ActivateCard(agent: string, revision: int, expected: int) returns (result: Result<string, Error>)
      modifies this`publications
      ensures (View(), result) == Activate(world, old(View()), old(View()), agent, revision, expected)
      ensures result.Ok? <==> && agent in agents && Find(versions, agent, revision).Some?
                              && old(ActiveRevision(View(), agent)) == expected
    {
      var plan := BeginActivation(agent, revision, expected);
      if plan.Err? {
        return Err(plan.error);
      }
      result := EndActivation(agent, revision, expected, plan.value);
    }

    method BeginState(agent: string, state: Option<PublicationState>, expected: int)
      returns (plan: Result<PublicationState, Error>)
      ensures plan == PlanState(View(), agent, state, expected)
      ensures plan == Err(ValidationError) <==> state.None?
      ensures plan == Err(NotFoundError) <==> state.Some? && agent !in publications
      ensures plan == Err(ConflictError) <==>
              state.Some? && agent in publications && publications[agent].active != expected
      ensures plan.Ok? <==> state.Some? && agent in publications && publications[agent].active == expected
      ensures plan.Ok? ==> Some(plan.value) == state
    {
      if state.None? {
        return Err(ValidationError);
      }
      if agent !in publications {
        return Err(NotFoundError);
      }
      if publications[agent].active != expected {
        return Err(ConflictError);
      }
      return Ok(state.value);
    }

    method EndState(agent: string, state: PublicationState, expected: int)
      modifies this`publications
      ensures View() == WriteState(old(View()), agent, state, expected)
    {
      if agent in publications && publications[agent].active == expected {
        publications := publications[agent := publications[agent].(state := state)];
      }
    }

    method SetPublicationState(agent: string, state: Option<PublicationState>, expected: int)
      returns (result: Result<int, Error>)
      modifies this`publications
      ensures (View(), result) == SetState(old(View()), old(View()), agent, state, expected)
      ensures result.Ok? ==>
                && state.Some? && agent in old(publications)
                && publications == old(publications)[agent := old(publications[agent]).(state := state.value)]
    {
      var plan := BeginState(agent, state, expected);
      if plan.Err? {
        return Err(plan.error);
      }
      EndState(agent, plan.value, expected);
      return Ok(expected);
    }

    method ReadActiveCard(agent: string) returns (result: Result<(Card, string, PublicationState), Error>)
      ensures result == Read(world, View(), agent)
      ensures result == Err(GoneError) <==>
              agent in agents && agent in publications && publications[agent].state == Withdrawn
      ensures result == Err(NotFoundError) <==>
                || agent !in agents || agent !in publications
                || (publications[agent].state != Withdrawn && !HasCard(versions, agent, publications[agent].active))
      ensures result.Err? ==> result.error in {GoneError, NotFoundError, QuarantineError}
      ensures result.Ok? ==>
                && agent in publications && publications[agent].state != Withdrawn && !world.shareCode(result.value.0)
                && result.value.1 == publications[agent].etag && result.value.2 == publications[agent].state
                && exists i :: && 0 <= i < |versions| && versions[i].agent == agent
                               && versions[i].revision == publications[agent].active
                               && versions[i].text == result.value.0
    {
      if agent in publications {
        FindIsFirst(versions, agent, publications[agent].active);
      }
      if agent !in agents || agent !in publications {
        return Err(NotFoundError);
      }
      var publication := publications[agent];
      if publication.state == Withdrawn {
        return Err(GoneError);
      }
      var version := Find(versions, agent, publication.active);
      if version.None? || !version.value.text.Obj? {
        return Err(NotFoundError);
      }
      if world.shareCode(version.value.text) {
        return Err(QuarantineError);
      }
      return Ok((version.value.text, publication.etag, publication.state));
    }
  }

  // ---------------------------------------------------------------- runs

  /** Calls in the order in which they write; read is the position in the run at which the call made its reads.
      The handlers have stored a nonce or a merchant row before and hold the lock, so they read at their own
      position; a caller that does not may have read at an earlier one, which is what the guards are there for. */
  datatype Call =
    | CreateCall(agent: string, publication: Card, bindings: seq<Binding>)
    | ActivateCall(agent: string, revision: int, expected: int, read: nat)
    | StateCall(agent: string, state: Option<PublicationState>, expected: int, read: nat)

  function Next(w: World, seen: Store, s: Store, c: Call): Store {
    match c
    case CreateCall(agent, publication, bindings) => Create(w, s, agent, publication, bindings).0
    case ActivateCall(agent, revision, expected, _) => Activate(w, seen, s, agent, revision, expected).0
    case StateCall(agent, state, expected, _) => SetState(seen, s, agent, state, expected).0
  }

  function Opened(agents: set<string>): Store { Store(agents, [], map[]) }

  /** The tables before position n of a run. */
  function At(w: World, agents: set<string>, run: seq<Call>, n: nat): Store
    requires n <= |run|
    decreases n, 0
  {
    if n == 0 then Opened(agents)
    else Next(w, SeenAt(w, agents, run, n - 1), At(w, agents, run, n - 1), run[n - 1])
  }

  /** The tables that call n has read. */
  function SeenAt(w: World, agents: set<string>, run: seq<Call>, n: nat): Store
    requires n < |run|
    decreases n, 1
  {
    if !run[n].CreateCall? && run[n].read < n then At(w, agents, run, run[n].read) else At(w, agents, run, n)
  }

  /** Publications come as dictionaries. */
  ghost predicate Decent(run: seq<Call>) {
    forall i :: 0 <= i < |run| && run[i].CreateCall? ==> Dictionary(run[i].publication)
  }

  function Count(versions: seq<Version>, agent: string): nat {
    if versions == [] then 0
    else Count(versions[..|versions| - 1], agent) + if versions[|versions| - 1].agent == agent then 1 else 0
  }

  /** The k-th revision of an agent, counting from one, carries the number k. */
  ghost predicate Numbered(versions: seq<Version>) {
    forall i :: 0 <= i < |versions| ==> versions[i].revision == Count(versions[..i], versions[i].agent) + 1
  }

  lemma {:induction false} MaxIsCount(versions: seq<Version>, agent: string)
    requires Numbered(versions)
    ensures MaxRevision(versions, agent) == Count(versions, agent)
    decreases |versions|
  {
    if versions != [] {
      var init := versions[..|versions| - 1];
      assert forall i :: 0 <= i < |init| ==> versions[..i] == init[..i];
      MaxIsCount(init, agent);
    }
  }

  lemma {:induction false} CountGrows(versions: seq<Version>, agent: string, i: nat, j: nat)
    requires i < j <= |versions| && versions[i].agent == agent
    ensures Count(versions[..i], agent) < Count(versions[..j], agent)
    decreases j
  {
    assert versions[..j][..j - 1] == versions[..j - 1];
    if i < j - 1 {
      CountGrows(versions, agent, i, j - 1);
    }
  }

  lemma {:induction false} FindAt(versions: seq<Version>, agent: string, revision: int, k: nat)
    requires k < |versions| && versions[k].agent == agent && versions[k].revision == revision
    requires forall i :: 0 <= i < k ==> versions[i].agent != agent || versions[i].revision != revision
    ensures Find(versions, agent, revision) == Some(versions[k])
  {
    if k > 0 {
      assert versions[1..][k - 1] == versions[k];
      FindAt(versions[1..], agent, revision, k - 1);
    }
  }

  lemma {:induction false} FindSome(versions: seq<Version>, agent: string, revision: int) returns (k: nat)
    requires Find(versions, agent, revision).Some?
    ensures k < |versions| && versions[k].agent == agent && versions[k].revision == revision
    ensures Find(versions, agent, revision) == Some(versions[k])
  {
    if versions[0].agent == agent && versions[0].revision == revision {
      k := 0;
    } else {
      k := FindSome(versions[1..], agent, revision);
      k := k + 1;
    }
  }

  /** The row number k of an agent is the only one with its revision. */
  lemma FindUnique(versions: seq<Version>, k: nat)
    requires Numbered(versions) && k < |versions|
    ensures Find(versions, versions[k].agent, versions[k].revision) == Some(versions[k])
  {
    forall i: nat | i < k
      ensures versions[i].agent != versions[k].agent || versions[i].revision != versions[k].revision
    {
      if versions[i].agent == versions[k].agent {
        CountGrows(versions, versions[k].agent, i, k);
      }
    }
    FindAt(versions, versions[k].agent, versions[k].revision, k);
  }

  lemma {:induction false} FindKept(versions: seq<Version>, more: Version, agent: string, revision: int)
    requires Find(versions, agent, revision).Some?
    ensures Find(versions + [more], agent, revision) == Find(versions, agent, revision)
  {
    assert (versions + [more])[1..] == versions[1..] + [more];
    if versions[0].agent != agent || versions[0].revision != revision {
      FindKept(versions[1..], more, agent, revision);
    }
  }

  /** Revisions are 1..n, stored cards are in sorted form, and every publication names an existing revision and
      carries the etag of its card. */
  ghost predicate Inv(w: World, s: Store) {
    && Numbered(s.versions)
    && (forall i :: 0 <= i < |s.versions| ==>
          && s.versions[i].agent in s.agents && s.versions[i].text.Obj?
          && Stored(s.versions[i].text) == s.versions[i].text)
    && (forall a :: a in s.publications ==>
          && a in s.agents
          && var version := Find(s.versions, a, s.publications[a].active);
             version.Some? && s.publications[a].etag == Etag(w, version.value.text))
  }

  lemma {:induction false} LookupDictionary(fields: Members, key: string)
    requires FieldsAreDictionaries(fields) && Lookup(fields, key).Some?
    ensures Dictionary(Lookup(fields, key).value)
  {
    if fields[0].key != key {
      LookupDictionary(fields[1..], key);
    }
  }

  lemma CreateKeepsInv(w: World, s: Store, agent: string, publication: Card, bindings: seq<Binding>)
    requires Inv(w, s) && Dictionary(publication)
    ensures Inv(w, Create(w, s, agent, publication, bindings).0)
  {
    if Create(w, s, agent, publication, bindings).1.Ok? {
      var card := CardOf(publication).value;
      var digest := Digest(w.checks, publication.fields);
      MaxIsCount(s.versions, agent);
      LookupDictionary(publication.fields, "agent_card");
      StoredTwice(card);
      AppendKeepsInv(w, s, Version(agent, MaxRevision(s.versions, agent) + 1, Stored(card), digest));
    }
  }

  lemma AppendNumbered(versions: seq<Version>, v: Version)
    requires Numbered(versions) && v.revision == Count(versions, v.agent) + 1
    ensures Numbered(versions + [v])
  {
    assert forall i :: 0 <= i <= |versions| ==> (versions + [v])[..i] == versions[..i];
    assert versions[..|versions|] == versions;
  }

  lemma AppendKeepsInv(w: World, s: Store, v: Version)
    requires Inv(w, s) && v.agent in s.agents && v.text.Obj? && Stored(v.text) == v.text
    requires v.revision == Count(s.versions, v.agent) + 1
    ensures Inv(w, s.(versions := s.versions + [v]))
  {
    AppendNumbered(s.versions, v);
    forall a | a in s.publications
      ensures Find(s.versions + [v], a, s.publications[a].active) == Find(s.versions, a, s.publications[a].active)
    {
      FindKept(s.versions, v, a, s.publications[a].active);
    }
  }

  /** What one state keeps of an earlier one: rows stay, and a publication is never taken back. */
  ghost predicate Grows(before: Store, after: Store) {
    && before.agents == after.agents && before.versions <= after.versions
    && before.publications.Keys <= after.publications.Keys
  }

  lemma {:induction false} FindLater(versions: seq<Version>, later: seq<Version>, agent: string, revision: int)
    requires versions <= later && Find(versions, agent, revision).Some?
    ensures Find(later, agent, revision) == Find(versions, agent, revision)
  {
    if versions[0].agent != agent || versions[0].revision != revision {
      FindLater(versions[1..], later[1..], agent, revision);
    }
  }

  lemma ActivateKeepsInv(w: World, seen: Store, s: Store, agent: string, revision: int, expected: int)
    requires Inv(w, s) && Grows(seen, s)
    ensures Inv(w, Activate(w, seen, s, agent, revision, expected).0)
  {
    if Activate(w, seen, s, agent, revision, expected).1.Ok? {
      FindLater(seen.versions, s.versions, agent, revision);
    }
  }

  lemma SetStateKeepsInv(w: World, seen: Store, s: Store, agent: string, state: Option<PublicationState>, expected: int)
    requires Inv(w, s)
    ensures Inv(w, SetState(seen, s, agent, state, expected).0)
  {
  }

  lemma NextGrows(w: World, seen: Store, s: Store, c: Call)
    ensures Grows(s, Next(w, seen, s, c))
  {
  }

  /** Every call, whatever earlier state it has read, keeps the invariant. */
  lemma NextKeepsInv(w: World, seen: Store, s: Store, c: Call)
    requires Inv(w, s) && Grows(seen, s) && (c.CreateCall? ==> Dictionary(c.publication))
    ensures Inv(w, Next(w, seen, s, c))
  {
    match c
    case CreateCall(agent, publication, bindings) => CreateKeepsInv(w, s, agent, publication, bindings);
    case ActivateCall(agent, revision, expected, _) => ActivateKeepsInv(w, seen, s, agent, revision, expected);
    case StateCall(agent, state, expected, _) => SetStateKeepsInv(w, seen, s, agent, state, expected);
  }

  /** Rows are never changed or removed. */
  lemma {:induction false} VersionsOnlyGrow(w: World, agents: set<string>, run: seq<Call>, i: nat, j: nat)
    requires i <= j <= |run|
    ensures Grows(At(w, agents, run, i), At(w, agents, run, j))
    decreases j
  {
    if i < j {
      VersionsOnlyGrow(w, agents, run, i, j - 1);
      NextGrows(w, SeenAt(w, agents, run, j - 1), At(w, agents, run, j - 1), run[j - 1]);
    }
  }

  lemma SeenGrows(w: World, agents: set<string>, run: seq<Call>, n: nat)
    requires n < |run|
    ensures Grows(SeenAt(w, agents, run, n), At(w, agents, run, n))
  {
    if !run[n].CreateCall? && run[n].read < n {
      VersionsOnlyGrow(w, agents, run, run[n].read, n);
    }
  }

  lemma CallKeepsInv(w: World, agents: set<string>, run: seq<Call>, n: nat, s: Store, after: Store)
    requires Decent(run) && n < |run| && s == At(w, agents, run, n) && after == At(w, agents, run, n + 1)
    requires Inv(w, s)
    ensures Inv(w, after) && after.agents == s.agents
  {
    var seen := SeenAt(w, agents, run, n);
    SeenGrows(w, agents, run, n);
    NextKeepsInv(w, seen, s, run[n]);
    NextGrows(w, seen, s, run[n]);
  }

  lemma {:induction false} RunKeepsInv(w: World, agents: set<string>, run: seq<Call>, n: nat)
    requires Decent(run) && n <= |run|
    ensures Inv(w, At(w, agents, run, n)) && At(w, agents, run, n).agents == agents
  {
    if n > 0 {
      RunKeepsInv(w, agents, run, n - 1);
      CallKeepsInv(w, agents, run, n - 1, At(w, agents, run, n - 1), At(w, agents, run, n));
    }
  }

  // ---------------------------------------------------------------- etags

  /** What the creation at position c returns. */
  function ReceiptAt(w: World, agents: set<string>, run: seq<Call>, c: nat): Result<Created, Error>
    requires c < |run| && run[c].CreateCall?
  {
    Create(w, At(w, agents, run, c), run[c].agent, run[c].publication, run[c].bindings).1
  }

  lemma RevisionKeepsEtag(w: World, before: Store, s: Store, agent: string, publication: Card, bindings: seq<Binding>)
    requires Inv(w, s) && Dictionary(publication) && Create(w, before, agent, publication, bindings).1.Ok?
    requires Create(w, before, agent, publication, bindings).0.versions <= s.versions
    ensures var promised := Create(w, before, agent, publication, bindings).1.value;
            && Find(s.versions, agent, promised.revision)
               == Some(Version(agent, promised.revision, Stored(CardOf(publication).value), promised.digest))
            && (agent in s.publications && s.publications[agent].active == promised.revision ==>
                  s.publications[agent].etag == promised.etag)
  {
    var after, k := Create(w, before, agent, publication, bindings).0, |before.versions|;
    assert after.versions[k] == s.versions[k];
    FindUnique(s.versions, k);
    LookupDictionary(publication.fields, "agent_card");
    StoredTwice(CardOf(publication).value);
  }

  /** The etag returned when a revision was created is the one that is stored whenever it is active, and the
      revision still has the bytes and digest it was created with. */
  lemma EtagPromiseIsKept(w: World, agents: set<string>, run: seq<Call>, c: nat, n: nat, s: Store)
    requires c < n <= |run| && Decent(run) && run[c].CreateCall? && s == At(w, agents, run, n)
    requires ReceiptAt(w, agents, run, c).Ok?
    ensures var promised, card := ReceiptAt(w, agents, run, c).value, CardOf(run[c].publication).value;
            && Find(s.versions, run[c].agent, promised.revision)
               == Some(Version(run[c].agent, promised.revision, Stored(card), promised.digest))
            && (run[c].agent in s.publications && s.publications[run[c].agent].active == promised.revision ==>
                  s.publications[run[c].agent].etag == promised.etag)
  {
    RunKeepsInv(w, agents, run, n);
    VersionsOnlyGrow(w, agents, run, c + 1, n);
    RevisionKeepsEtag(w, At(w, agents, run, c), s, run[c].agent, run[c].publication, run[c].bindings);
  }

  /** What is created and then activated is what is served: the card in its stored form with the etag that its
      creation returned. */
  lemma CreatedCardIsServed(w: World, s: Store, agent: string, publication: Card, bindings: seq<Binding>)
    requires Inv(w, s) && Dictionary(publication) && Create(w, s, agent, publication, bindings).1.Ok?
    ensures var (created, receipt) := Create(w, s, agent, publication, bindings);
            var card := Stored(CardOf(publication).value);
            var expected := ActiveRevision(s, agent);
            var (active, etag) := Activate(w, created, created, agent, receipt.value.revision, expected);
            && etag == Ok(receipt.value.etag)
            && Read(w, active, agent) ==
               if w.shareCode(card) then Err(QuarantineError)
               else Ok((card, receipt.value.etag, PublicationState.Active))
  {
    CreateKeepsInv(w, s, agent, publication, bindings);
    LookupDictionary(publication.fields, "agent_card");
    StoredTwice(CardOf(publication).value);
    FindUnique(Create(w, s, agent, publication, bindings).0.versions, |s.versions|);
  }

  // ---------------------------------------------------------------- what is served was accepted

  /** The creation at position c accepted this row's card. */
  ghost predicate AcceptedAs(w: World, agents: set<string>, run: seq<Call>, c: nat, version: Version) {
    && c < |run| && run[c].CreateCall? && run[c].agent == version.agent
    && Accepts(w.checks, run[c].publication, version.agent, ActiveBinding(run[c].bindings, version.agent))
    && version.text == Stored(CardOf(run[c].publication).value)
    && version.digest == Digest(w.checks, run[c].publication.fields)
  }

  lemma {:induction false} RowsWereAccepted(w: World, agents: set<string>, run: seq<Call>, n: nat, k: nat)
    returns (c: nat)
    requires n <= |run| && k < |At(w, agents, run, n).versions|
    ensures c < n && AcceptedAs(w, agents, run, c, At(w, agents, run, n).versions[k])
  {
    var before := At(w, agents, run, n - 1);
    NextGrows(w, SeenAt(w, agents, run, n - 1), before, run[n - 1]);
    if k < |before.versions| {
      c := RowsWereAccepted(w, agents, run, n - 1, k);
    } else {
      c := n - 1;
    }
  }

  /** In every run a card that can be read is the card of an earlier accepted publication of that agent, which
      pointed at the runtime that was bound then. */
  lemma ServedCardsWereAccepted(w: World, agents: set<string>, run: seq<Call>, n: nat, agent: string, s: Store)
    returns (c: nat)
    requires n <= |run| && s == At(w, agents, run, n) && Read(w, s, agent).Ok?
    ensures c < n && run[c].CreateCall? && run[c].agent == agent
    ensures Accepts(w.checks, run[c].publication, agent, ActiveBinding(run[c].bindings, agent))
    ensures Read(w, s, agent).value.0 == Stored(CardOf(run[c].publication).value)
  {
    var k := FindSome(s.versions, agent, s.publications[agent].active);
    c := RowsWereAccepted(w, agents, run, n, k);
  }

  // ---------------------------------------------------------------- activations form a chain

  predicate ActivatedAt(w: World, agents: set<string>, run: seq<Call>, m: nat, agent: string) {
    && m < |run| && run[m].ActivateCall? && run[m].agent == agent
    && Activate(w, SeenAt(w, agents, run, m), At(w, agents, run, m), agent, run[m].revision, run[m].expected).1.Ok?
  }

  /** The revision that the latest successful activation before position n was for. */
  function LastActivated(w: World, agents: set<string>, run: seq<Call>, n: nat, agent: string): int
    requires n <= |run|
  {
    if n == 0 then 0
    else if ActivatedAt(w, agents, run, n - 1, agent) then run[n - 1].revision
    else LastActivated(w, agents, run, n - 1, agent)
  }

  lemma {:induction false} ActiveIsLastActivated(w: World, agents: set<string>, run: seq<Call>, n: nat, agent: string)
    requires n <= |run|
    ensures ActiveRevision(At(w, agents, run, n), agent) == LastActivated(w, agents, run, n, agent)
  {
    if n > 0 {
      ActiveIsLastActivated(w, agents, run, n - 1, agent);
    }
  }

  /** Whatever each of them had read: the successful activations of an agent form a chain in which each one was
      for a stored revision and expected exactly the revision of the one before it. */
  lemma ActivationsFormAChain(w: World, agents: set<string>, run: seq<Call>, m: nat, agent: string)
    requires ActivatedAt(w, agents, run, m, agent)
    ensures run[m].expected == LastActivated(w, agents, run, m, agent)
    ensures Find(At(w, agents, run, m).versions, agent, run[m].revision).Some?
    ensures ActiveRevision(At(w, agents, run, m + 1), agent) == run[m].revision
  {
    ActiveIsLastActivated(w, agents, run, m, agent);
    SeenGrows(w, agents, run, m);
    FindLater(SeenAt(w, agents, run, m).versions, At(w, agents, run, m).versions, agent, run[m].revision);
  }

  // ---------------------------------------------------------------- state changes

  predicate IsWithdrawn(s: Store, agent: string) {
    agent in s.publications && s.publications[agent].state == Withdrawn
  }

  predicate StateSetAt(w: World, agents: set<string>, run: seq<Call>, m: nat, agent: string) {
    && m < |run| && run[m].StateCall? && run[m].agent == agent
    && SetState(SeenAt(w, agents, run, m), At(w, agents, run, m), agent, run[m].state, run[m].expected).1.Ok?
  }

  /** A state change that is answered with success takes effect exactly if the latest activation before its write
      was for the revision it expected; otherwise it changes nothing at all. */
  lemma StateChangeTakesEffectIff(w: World, agents: set<string>, run: seq<Call>, m: nat, agent: string)
    requires StateSetAt(w, agents, run, m, agent)
    ensures var before, after := At(w, agents, run, m), At(w, agents, run, m + 1);
            && run[m].state.Some? && agent in before.publications
            && after == if LastActivated(w, agents, run, m, agent) == run[m].expected
                        then before.(publications := before.publications[agent :=
                                       before.publications[agent].(state := run[m].state.value)])
                        else before
  {
    ActiveIsLastActivated(w, agents, run, m, agent);
    SeenGrows(w, agents, run, m);
  }

  /** A caller that holds the lock is not overtaken. */
  lemma LockedStateChangeHolds(w: World, agents: set<string>, run: seq<Call>, m: nat, agent: string)
    requires StateSetAt(w, agents, run, m, agent) && run[m].read >= m
    ensures LastActivated(w, agents, run, m, agent) == run[m].expected
  {
    ActiveIsLastActivated(w, agents, run, m, agent);
  }

  /** Without the lock, a withdrawal that an activation overtakes between its read and its write still reports
      success, and the card stays public. */
  lemma OvertakenWithdrawalIsLost(w: World, s: Store, agent: string, revision: int, expected: int)
    requires Inv(w, s) && agent in s.publications && s.publications[agent].active == expected != revision
    requires Find(s.versions, agent, revision).Some? && !w.shareCode(Find(s.versions, agent, revision).value.text)
    ensures var overtaken := Activate(w, s, s, agent, revision, expected).0;
            && SetState(s, overtaken, agent, Some(Withdrawn), expected) == (overtaken, Ok(expected))
            && Read(w, overtaken, agent).Ok?
  {
    var k := FindSome(s.versions, agent, revision);
  }

  /** What brings a withdrawn card back: an activation, or a state change to ACTIVE or PAUSED that holds. */
  predicate Revives(w: World, seen: Store, s: Store, c: Call, agent: string) {
    && c.agent == agent
    && match c
       case CreateCall(_, _, _) => false
       case ActivateCall(_, revision, expected, _) => Activate(w, seen, s, agent, revision, expected).1.Ok?
       case StateCall(_, state, expected, _) =>
         && SetState(seen, s, agent, state, expected).1.Ok? && ActiveRevision(s, agent) == expected
         && state != Some(Withdrawn)
  }

  predicate RevivesAt(w: World, agents: set<string>, run: seq<Call>, m: nat, agent: string)
    requires m < |run|
  {
    Revives(w, SeenAt(w, agents, run, m), At(w, agents, run, m), run[m], agent)
  }

  lemma WithdrawnStep(w: World, seen: Store, s: Store, c: Call, agent: string)
    requires IsWithdrawn(s, agent)
    ensures agent in Next(w, seen, s, c).publications
    ensures IsWithdrawn(Next(w, seen, s, c), agent) == !Revives(w, seen, s, c, agent)
  {
  }

  lemma {:induction false} WithdrawnStays(w: World, agents: set<string>, run: seq<Call>, i: nat, n: nat, agent: string)
    requires i <= n <= |run| && IsWithdrawn(At(w, agents, run, i), agent)
    requires forall m: nat :: i <= m < n ==> !RevivesAt(w, agents, run, m, agent)
    ensures IsWithdrawn(At(w, agents, run, n), agent)
    decreases n
  {
    if i < n {
      WithdrawnStays(w, agents, run, i, n - 1, agent);
      assert !RevivesAt(w, agents, run, n - 1, agent);
      WithdrawnStep(w, SeenAt(w, agents, run, n - 1), At(w, agents, run, n - 1), run[n - 1], agent);
    }
  }

  lemma ReadAnswers(w: World, s: Store, agent: string)
    requires Inv(w, s) && agent in s.publications
    ensures Read(w, s, agent) == Err(GoneError) <==> IsWithdrawn(s, agent)
    ensures Read(w, s, agent).Ok? || Read(w, s, agent).error in {GoneError, QuarantineError}
  {
    var k := FindSome(s.versions, agent, s.publications[agent].active);
  }

  /** A withdrawn card answers "gone" until something revives it, and reviving it always makes it readable
      again unless it is quarantined. */
  lemma WithdrawnIsGoneUntilRevived(w: World, agents: set<string>, run: seq<Call>, i: nat, n: nat, agent: string)
    requires i <= n < |run| && Decent(run) && IsWithdrawn(At(w, agents, run, i), agent)
    requires forall m: nat :: i <= m < n ==> !RevivesAt(w, agents, run, m, agent)
    ensures Read(w, At(w, agents, run, n), agent) == Err(GoneError)
    ensures var after := Read(w, At(w, agents, run, n + 1), agent);
            if RevivesAt(w, agents, run, n, agent) then after.Ok? || after == Err(QuarantineError)
            else after == Err(GoneError)
  {
    WithdrawnStays(w, agents, run, i, n, agent);
    WithdrawnThenRevived(w, agents, run, n, agent);
  }

  lemma WithdrawnThenRevived(w: World, agents: set<string>, run: seq<Call>, n: nat, agent: string)
    requires n < |run| && Decent(run) && IsWithdrawn(At(w, agents, run, n), agent)
    ensures Read(w, At(w, agents, run, n), agent) == Err(GoneError)
    ensures var after := Read(w, At(w, agents, run, n + 1), agent);
            if RevivesAt(w, agents, run, n, agent) then after.Ok? || after == Err(QuarantineError)
            else after == Err(GoneError)
  {
    var s, after := At(w, agents, run, n), At(w, agents, run, n + 1);
    RunKeepsInv(w, agents, run, n);
    RunKeepsInv(w, agents, run, n + 1);
    WithdrawnStep(w, SeenAt(w, agents, run, n), s, run[n], agent);
    ReadAnswers(w, s, agent);
    ReadAnswers(w, after, agent);
  }

  /** In every run the revisions of each agent are 1..n, and a card that can be read is that of the active
      revision, with the etag of exactly that card. */
  lemma ReadsAreConsistent(w: World, agents: set<string>, run: seq<Call>, n: nat, agent: string, s: Store)
    requires n <= |run| && Decent(run) && s == At(w, agents, run, n)
    ensures Numbered(s.versions) && MaxRevision(s.versions, agent) == Count(s.versions, agent)
    ensures agent in s.publications ==> Find(s.versions, agent, s.publications[agent].active).Some?
    ensures Read(w, s, agent).Ok? ==>
              && Find(s.versions, agent, ActiveRevision(s, agent)).Some?
              && Read(w, s, agent).value.0 == Find(s.versions, agent, ActiveRevision(s, agent)).value.text
              && Read(w, s, agent).value.1 == Etag(w, Read(w, s, agent).value.0)
  {
    RunKeepsInv(w, agents, run, n);
    MaxIsCount(s.versions, agent);
  }
}
