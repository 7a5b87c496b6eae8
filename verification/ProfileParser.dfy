/** The two profile parsers: bounds, shape, secret scan and public projection; other validators are a predicate. */
module ProfileParser {
  import opened Wrappers
  import opened JsonValue
  import opened SecretScan
  import opened PublicProjection
  import opened ProjectionExact
  import Order
  import UcpNormalize

  datatype ParseError =
    | OutOfBounds
    | BadSource
    | NotAnObject
    | BadAuthors
    | BadVersion
    | Unnormal(why: UcpNormalize.NormalizeError)
    | Refused
    | Secrets(error: ProfileError)

  datatype Parsed = Parsed(public: seq<Member>, quarantined: seq<string>)

  const MAX_DEPTH := 100
  const MAX_NODES := 50_000

  // ---------------------------------------------------------------- projecting, loop by loop

  /** Copy the members named by keys that pass the condition and are not skipped. */
  method KeepLeaves(fields: seq<Member>, keys: seq<string>, kind: Kind, path: string, secrets: set<string>)
    returns (kept: seq<Member>)
    ensures kept == Project(Leaves(keys, kind), fields, path, secrets)
  {
    kept := [];
    var i := 0;
    while i < |keys|
      invariant i <= |keys|
      invariant kept == Project(Leaves(keys, kind)[..i], fields, path, secrets)
    {
      var found := Lookup(fields, keys[i]);
      if found.Some? && Accepts(kind, found.value) && !Skip(secrets, Child(path, keys[i])) {
        kept := kept + [Field(keys[i], found.value)];
      }
      ProjectAppend(Leaves(keys, kind)[..i], Leaf(keys[i], kind), fields, path, secrets);
      assert Leaves(keys, kind)[..i + 1] == Leaves(keys, kind)[..i] + [Leaf(keys[i], kind)];
      i := i + 1;
    }
    assert Leaves(keys, kind)[..|keys|] == Leaves(keys, kind);
  }

  lemma {:induction false} ItemsAppend(entries: seq<Entry>, items: seq<Value>, first: nat, path: string,
                                       secrets: set<string>, i: nat)
    requires i < |items|
    ensures ProjectItems(entries, items[..i + 1], first, path, secrets) ==
            ProjectItems(entries, items[..i], first, path, secrets)
            + ProjectItem(entries, items[i], first + i, path, secrets)
  {
    if i == 0 {
      assert items[..1][1..] == [] && items[..0] == [];
    } else {
      assert items[..i + 1][1..] == items[1..][..i] && items[..i][1..] == items[1..][..i - 1];
      ItemsAppend(entries, items[1..], first + 1, path, secrets, i - 1);
      Order.ConcatAssociative(ProjectItem(entries, items[0], first, path, secrets),
                              ProjectItems(entries, items[1..][..i - 1], first + 1, path, secrets),
                              ProjectItem(entries, items[i], first + i, path, secrets));
    }
  }

  /** The loop over a list of objects with two groups of leaves; path is that of the list. */
  method KeepList(items: seq<Value>, path: string, keys: seq<string>, kind: Kind, more: seq<string>, moreKind: Kind,
                  secrets: set<string>)
    returns (kept: seq<Value>)
    ensures kept == ProjectItems(Leaves(keys, kind) + Leaves(more, moreKind), items, 0, path, secrets)
  {
    ghost var entries := Leaves(keys, kind) + Leaves(more, moreKind);
    kept := [];
    var i := 0;
    while i < |items|
      invariant i <= |items|
      invariant kept == ProjectItems(entries, items[..i], 0, path, secrets)
    {
      ItemsAppend(entries, items, 0, path, secrets, i);
      if items[i].Obj? {
        var base := path + "." + Decimal(i);
        var projected := KeepLeaves(items[i].fields, keys, kind, base, secrets);
        var rest := KeepLeaves(items[i].fields, more, moreKind, base, secrets);
        ProjectConcat(Leaves(keys, kind), Leaves(more, moreKind), items[i].fields, base, secrets);
        projected := projected + rest;
        if projected != [] {
          kept := kept + [Obj(projected)];
        }
      }
      i := i + 1;
    }
    assert items[..|items|] == items;
  }

  /** agents.author, if there, is a list of strings; the schema stage refuses anything else. */
  predicate AuthorsAreText(card: seq<Member>) {
    match Lookup(card, "agents")
    case None => true
    case Some(Null) => true
    case Some(Obj(agents)) =>
      (match Lookup(agents, "author")
       case None => true
       case Some(Null) => true
       case Some(Arr(authors)) => forall i :: 0 <= i < |authors| ==> authors[i].Str?
       case Some(_) => false)
    case Some(_) => false
  }

  method KeepAuthors(authors: seq<Value>) returns (kept: seq<Value>)
    requires forall i :: 0 <= i < |authors| ==> authors[i].Str?
    ensures kept == authors
  {
    kept := [];
    for i := 0 to |authors|
      invariant kept == authors[..i]
    {
      kept := kept + [Str(authors[i].s)];
    }
  }

  // The parts of a card, named once.
  const CARD_TOP := ["name", "url", "version", "description", "documentationUrl"]
  const PROVIDER := Sub("provider", Leaves(["organization", "url"], NotNull))
  const SKILLS := Each("skills", SKILL)
  const ABILITIES := ["streaming", "pushNotifications", "stateTransitionHistory"]
  const CAPABILITIES := Sub("capabilities", Leaves(ABILITIES, IsBoolean))
  const MODES := ["defaultInputModes", "defaultOutputModes"]
  const AGENTS := Sub("agents", [Leaf("author", IsList)])

  /** A nested object of leaves; left out when nothing of it is kept. */
  method KeepObject(fields: seq<Member>, key: string, keys: seq<string>, kind: Kind, path: string, secrets: set<string>)
    returns (kept: seq<Member>)
    ensures kept == ProjectEntry(Sub(key, Leaves(keys, kind)), fields, path, secrets)
  {
    kept := [];
    var found := Lookup(fields, key);
    if found.Some? && found.value.Obj? {
      var inner := KeepLeaves(found.value.fields, keys, kind, Child(path, key), secrets);
      if inner != [] {
        kept := [Field(key, Obj(inner))];
      }
    }
  }

  /** A nested list of objects; left out when nothing of it is kept. */
  method KeepEach(fields: seq<Member>, key: string, keys: seq<string>, kind: Kind, more: seq<string>, moreKind: Kind,
                  path: string, secrets: set<string>)
    returns (kept: seq<Member>)
    ensures kept == ProjectEntry(Each(key, Leaves(keys, kind) + Leaves(more, moreKind)), fields, path, secrets)
  {
    kept := [];
    var found := Lookup(fields, key);
    if found.Some? && found.value.Arr? {
      var inner := KeepList(found.value.items, Child(path, key), keys, kind, more, moreKind, secrets);
      if inner != [] {
        kept := [Field(key, Arr(inner))];
      }
    }
  }

  method KeepAgents(card: seq<Member>, secrets: set<string>) returns (kept: seq<Member>)
    requires AuthorsAreText(card)
    ensures kept == ProjectEntry(AGENTS, card, "", secrets)
  {
    kept := [];
    var agents := Lookup(card, "agents");
    if agents.Some? && agents.value.Obj? {
      OneLeaf("author", IsList, agents.value.fields, "agents", secrets);
      var author := Lookup(agents.value.fields, "author");
      assert Child("agents", "author") == "agents.author";
      if author.Some? && author.value.Arr? && !Skip(secrets, "agents.author") {
        var authors := KeepAuthors(author.value.items);
        kept := [Field("agents", Obj([Field("author", Arr(authors))]))];
      }
    }
  }

  lemma OneLeaf(key: string, kind: Kind, fields: seq<Member>, path: string, secrets: set<string>)
    ensures Project([Leaf(key, kind)], fields, path, secrets) == ProjectEntry(Leaf(key, kind), fields, path, secrets)
  {
    assert [Leaf(key, kind)][1..] == [];
  }

  lemma CardParts(card: seq<Member>, secrets: set<string>)
    ensures Project(CARD, card, "", secrets) ==
            Project(Leaves(CARD_TOP, NotNull), card, "", secrets)
            + ProjectEntry(PROVIDER, card, "", secrets) + ProjectEntry(SKILLS, card, "", secrets)
            + ProjectEntry(CAPABILITIES, card, "", secrets) + Project(Leaves(MODES, IsList), card, "", secrets)
            + ProjectEntry(AGENTS, card, "", secrets)
  {
    var parts := Leaves(CARD_TOP, NotNull);
    ProjectAppend(parts, PROVIDER, card, "", secrets);
    ProjectAppend(parts + [PROVIDER], SKILLS, card, "", secrets);
    ProjectAppend(parts + [PROVIDER] + [SKILLS], CAPABILITIES, card, "", secrets);
    ProjectConcat(parts + [PROVIDER] + [SKILLS] + [CAPABILITIES], Leaves(MODES, IsList), card, "", secrets);
    ProjectAppend(parts + [PROVIDER] + [SKILLS] + [CAPABILITIES] + Leaves(MODES, IsList), AGENTS, card, "", secrets);
    assert parts + [PROVIDER] + [SKILLS] + [CAPABILITIES] + Leaves(MODES, IsList) + [AGENTS] == CARD;
  }

  method ProjectCard(card: seq<Member>, secrets: set<string>) returns (public: seq<Member>)
    requires AuthorsAreText(card)
    ensures public == Project(CARD, card, "", secrets)
  {
    public := KeepLeaves(card, CARD_TOP, NotNull, "", secrets);
    var provider := KeepObject(card, "provider", ["organization", "url"], NotNull, "", secrets);
    var skills := KeepEach(card, "skills", ["id", "name", "description"], NotNull,
                           ["tags", "examples", "inputModes", "outputModes"], IsList, "", secrets);
    var capabilities := KeepObject(card, "capabilities", ABILITIES, IsBoolean, "", secrets);
    var modes := KeepLeaves(card, MODES, IsList, "", secrets);
    var agents := KeepAgents(card, secrets);
    CardParts(card, secrets);
    public := public + provider + skills + capabilities + modes + agents;
  }

  const SPEC_KEYS := ["id", "label", "version", "specUrl", "schemaUrl"]

  method KeepIdentity(profile: seq<Member>, secrets: set<string>) returns (kept: seq<Member>)
    ensures kept == ProjectEntry(Sub("serviceIdentity", IDENTITY), profile, "", secrets)
  {
    kept := [];
    var identity := Lookup(profile, "serviceIdentity");
    if identity.Some? && identity.value.Obj? {
      var fields := identity.value.fields;
      var names := KeepLeaves(fields, ["id", "name", "description"], NotNull, "serviceIdentity", secrets);
      var owner := KeepObject(fields, "owner", ["name", "url"], NotNull, "serviceIdentity", secrets);
      var area := KeepLeaves(fields, ["serviceArea"], IsObject, "serviceIdentity", secrets);
      ProjectAppend(Leaves(["id", "name", "description"], NotNull), Sub("owner", Leaves(["name", "url"], NotNull)),
                    fields, "serviceIdentity", secrets);
      ProjectConcat(Leaves(["id", "name", "description"], NotNull) + [Sub("owner", Leaves(["name", "url"], NotNull))],
                    Leaves(["serviceArea"], IsObject), fields, "serviceIdentity", secrets);
      assert Leaves(["id", "name", "description"], NotNull) + [Sub("owner", Leaves(["name", "url"], NotNull))]
             + Leaves(["serviceArea"], IsObject) == IDENTITY;
      var projected := names + owner + area;
      if projected != [] {
        kept := [Field("serviceIdentity", Obj(projected))];
      }
    }
  }

  const ENDPOINTS := Each("endpoints", ENDPOINT)
  const DOCUMENTATION := Leaf("documentationUri", IsText)
  const SPECIFICATIONS := Each("specifications", SPECIFICATION)

  lemma ServiceParts(service: seq<Member>, path: string, secrets: set<string>)
    ensures Project(SERVICE, service, path, secrets) ==
            Project(Leaves(["id", "type", "description"], NotNull), service, path, secrets)
            + Project(Leaves(["capabilities"], IsList), service, path, secrets)
            + ProjectEntry(ENDPOINTS, service, path, secrets)
            + Project(Leaves(["documentationUri"], IsText), service, path, secrets)
            + ProjectEntry(SPECIFICATIONS, service, path, secrets)
  {
    var parts := Leaves(["id", "type", "description"], NotNull);
    var lists, documents := Leaves(["capabilities"], IsList), Leaves(["documentationUri"], IsText);
    ProjectConcat(parts, lists, service, path, secrets);
    ProjectAppend(parts + lists, ENDPOINTS, service, path, secrets);
    ProjectConcat(parts + lists + [ENDPOINTS], documents, service, path, secrets);
    ProjectAppend(parts + lists + [ENDPOINTS] + documents, SPECIFICATIONS, service, path, secrets);
    assert parts + lists + [ENDPOINTS] + documents + [SPECIFICATIONS] == SERVICE;
  }

  method KeepService(service: seq<Member>, path: string, secrets: set<string>) returns (kept: seq<Member>)
    ensures kept == Project(SERVICE, service, path, secrets)
  {
    var names := KeepLeaves(service, ["id", "type", "description"], NotNull, path, secrets);
    var capabilities := KeepLeaves(service, ["capabilities"], IsList, path, secrets);
    var endpoints := KeepEach(service, "endpoints", ["uri", "protocol"], NotNull, ["version"], IsText, path, secrets);
    var documentation := KeepLeaves(service, ["documentationUri"], IsText, path, secrets);
    assert SPECIFICATION == Leaves(SPEC_KEYS, NotNull) + Leaves([], IsText);
    var specifications := KeepEach(service, "specifications", SPEC_KEYS, NotNull, [], IsText, path, secrets);
    ServiceParts(service, path, secrets);
    kept := names + capabilities + endpoints + documentation + specifications;
  }

  method KeepServices(profile: seq<Member>, secrets: set<string>) returns (kept: seq<Member>)
    ensures kept == ProjectEntry(Each("services", SERVICE), profile, "", secrets)
  {
    kept := [];
    var services := Lookup(profile, "services");
    if services.Some? && services.value.Arr? {
      var items, projected, i := services.value.items, [], 0;
      while i < |items|
        invariant i <= |items|
        invariant projected == ProjectItems(SERVICE, items[..i], 0, "services", secrets)
      {
        ItemsAppend(SERVICE, items, 0, "services", secrets, i);
        if items[i].Obj? {
          var service := KeepService(items[i].fields, "services" + "." + Decimal(i), secrets);
          if service != [] {
            projected := projected + [Obj(service)];
          }
        }
        i := i + 1;
      }
      assert items[..|items|] == items;
      if projected != [] {
        kept := [Field("services", Arr(projected))];
      }
    }
  }

  lemma UcpParts(profile: seq<Member>, secrets: set<string>)
    ensures Project(UCP, profile, "", secrets) ==
            Project(Leaves(["implementationVersion"], IsNonEmptyText), profile, "", secrets)
            + ProjectEntry(Sub("serviceIdentity", IDENTITY), profile, "", secrets)
            + ProjectEntry(Each("services", SERVICE), profile, "", secrets)
            + ProjectEntry(Each("specifications", SPECIFICATION + Leaves(["openAPIDocument"], IsText)), profile, "",
                           secrets)
  {
    var parts := Leaves(["implementationVersion"], IsNonEmptyText);
    var identity, services := Sub("serviceIdentity", IDENTITY), Each("services", SERVICE);
    var specifications := Each("specifications", SPECIFICATION + Leaves(["openAPIDocument"], IsText));
    ProjectAppend(parts, identity, profile, "", secrets);
    ProjectAppend(parts + [identity], services, profile, "", secrets);
    ProjectAppend(parts + [identity] + [services], specifications, profile, "", secrets);
    assert parts + [identity] + [services] + [specifications] == UCP;
  }

  /** The version comes first and unchecked. */
  method ProjectUcp(profile: seq<Member>, version: Value, secrets: set<string>) returns (public: seq<Member>)
    requires Lookup(profile, "specificationVersion") == Some(version)
    ensures public == [Field("specificationVersion", version)] + Project(UCP, profile, "", secrets)
  {
    var implementation := KeepLeaves(profile, ["implementationVersion"], IsNonEmptyText, "", secrets);
    var identity := KeepIdentity(profile, secrets);
    var services := KeepServices(profile, secrets);
    var specifications := KeepEach(profile, "specifications", SPEC_KEYS, NotNull, ["openAPIDocument"], IsText, "",
                                   secrets);
    UcpParts(profile, secrets);
    public := [Field("specificationVersion", version)] + (implementation + identity + services + specifications);
  }

  // ---------------------------------------------------------------- the parsers

  /** The keys of the objects and lists that are projected member by member. */
  const CONTAINERS := {"provider", "skills", "capabilities", "agents",
                       "serviceIdentity", "owner", "services", "endpoints", "specifications"}

  /** No container of the two formats is itself named like a secret, as the word list has it. */
  ghost predicate ContainersArePublic(p: Patterns) { forall key :: key in CONTAINERS ==> !p.name(key) }

  /** Entries with plain keys whose containers are public. */
  ghost predicate Fine(p: Patterns, entries: seq<Entry>) { PublicNames(p, entries) && PlainEntries(entries) }

  lemma {:induction false} LeavesFine(p: Patterns, keys: seq<string>, kind: Kind)
    requires forall i :: 0 <= i < |keys| ==> PlainKey(keys[i])
    ensures Fine(p, Leaves(keys, kind))
  {
    if keys != [] {
      assert Leaves(keys, kind)[1..] == Leaves(keys[1..], kind);
      LeavesFine(p, keys[1..], kind);
    }
  }

  lemma {:induction false} ConcatFine(p: Patterns, a: seq<Entry>, b: seq<Entry>)
    requires Fine(p, a) && Fine(p, b)
    ensures Fine(p, a + b)
  {
    if a == [] {
      assert a + b == b;
    } else {
      assert (a + b)[1..] == a[1..] + b;
      ConcatFine(p, a[1..], b);
    }
  }

  lemma AppendSubFine(p: Patterns, a: seq<Entry>, key: string, entries: seq<Entry>)
    requires Fine(p, a) && Fine(p, entries) && PlainKey(key) && !p.name(key)
    ensures Fine(p, a + [Sub(key, entries)])
  {
    assert [Sub(key, entries)][1..] == [];
    ConcatFine(p, a, [Sub(key, entries)]);
  }

  lemma AppendEachFine(p: Patterns, a: seq<Entry>, key: string, entries: seq<Entry>)
    requires Fine(p, a) && Fine(p, entries) && PlainKey(key) && !p.name(key)
    ensures Fine(p, a + [Each(key, entries)])
  {
    assert [Each(key, entries)][1..] == [];
    ConcatFine(p, a, [Each(key, entries)]);
  }

  lemma AppendLeavesFine(p: Patterns, a: seq<Entry>, keys: seq<string>, kind: Kind)
    requires Fine(p, a) && forall i :: 0 <= i < |keys| ==> PlainKey(keys[i])
    ensures Fine(p, a + Leaves(keys, kind))
  {
    LeavesFine(p, keys, kind);
    ConcatFine(p, a, Leaves(keys, kind));
  }

  lemma CardTopFine(p: Patterns)
    ensures Fine(p, Leaves(CARD_TOP, NotNull))
  {
    LeavesFine(p, CARD_TOP, NotNull);
  }

  lemma SkillFine(p: Patterns)
    ensures Fine(p, SKILL)
  {
    LeavesFine(p, ["id", "name", "description"], NotNull);
    AppendLeavesFine(p, Leaves(["id", "name", "description"], NotNull),
                     ["tags", "examples", "inputModes", "outputModes"], IsList);
  }

  lemma CardObjectsFine(p: Patterns)
    ensures Fine(p, Leaves(["organization", "url"], NotNull)) && Fine(p, Leaves(ABILITIES, IsBoolean))
    ensures Fine(p, [Leaf("author", IsList)])
  {
    LeavesFine(p, ["organization", "url"], NotNull);
    LeavesFine(p, ABILITIES, IsBoolean);
    LeavesFine(p, ["author"], IsList);
    assert Leaves(["author"], IsList) == [Leaf("author", IsList)];
  }

  lemma CardShapeFine(p: Patterns, top: seq<Entry>, provider: seq<Entry>, skill: seq<Entry>, abilities: seq<Entry>,
                      modes: seq<Entry>, author: seq<Entry>)
    requires ContainersArePublic(p) && Fine(p, top) && Fine(p, provider) && Fine(p, skill) && Fine(p, abilities)
    requires Fine(p, modes) && Fine(p, author)
    ensures Fine(p, top + [Sub("provider", provider)] + [Each("skills", skill)] + [Sub("capabilities", abilities)]
                    + modes + [Sub("agents", author)])
  {
    var a := top + [Sub("provider", provider)];
    AppendSubFine(p, top, "provider", provider);
    AppendEachFine(p, a, "skills", skill);
    AppendSubFine(p, a + [Each("skills", skill)], "capabilities", abilities);
    var b := a + [Each("skills", skill)] + [Sub("capabilities", abilities)];
    ConcatFine(p, b, modes);
    AppendSubFine(p, b + modes, "agents", author);
  }

  lemma CardFine(p: Patterns)
    requires ContainersArePublic(p)
    ensures Fine(p, CARD)
  {
    CardTopFine(p);
    CardObjectsFine(p);
    SkillFine(p);
    LeavesFine(p, MODES, IsList);
    CardShapeFine(p, Leaves(CARD_TOP, NotNull), Leaves(["organization", "url"], NotNull), SKILL,
                  Leaves(ABILITIES, IsBoolean), Leaves(MODES, IsList), [Leaf("author", IsList)]);
    CardIs();
  }

  lemma CardIs()
    ensures CARD == Leaves(CARD_TOP, NotNull) + [PROVIDER] + [SKILLS] + [CAPABILITIES] + Leaves(MODES, IsList)
                    + [AGENTS]
  {
  }

  lemma IdentityFine(p: Patterns)
    requires ContainersArePublic(p)
    ensures Fine(p, IDENTITY)
  {
    var a := Leaves(["id", "name", "description"], NotNull);
    LeavesFine(p, ["id", "name", "description"], NotNull);
    LeavesFine(p, ["name", "url"], NotNull);
    AppendSubFine(p, a, "owner", Leaves(["name", "url"], NotNull));
    AppendLeavesFine(p, a + [Sub("owner", Leaves(["name", "url"], NotNull))], ["serviceArea"], IsObject);
    assert a + [Sub("owner", Leaves(["name", "url"], NotNull))] + Leaves(["serviceArea"], IsObject) == IDENTITY;
  }

  lemma EndpointFine(p: Patterns)
    ensures Fine(p, ENDPOINT)
  {
    LeavesFine(p, ["uri", "protocol"], NotNull);
    AppendLeavesFine(p, Leaves(["uri", "protocol"], NotNull), ["version"], IsText);
  }

  lemma SpecificationFine(p: Patterns)
    ensures Fine(p, SPECIFICATION) && Fine(p, SPECIFICATION + Leaves(["openAPIDocument"], IsText))
  {
    LeavesFine(p, SPEC_KEYS, NotNull);
    AppendLeavesFine(p, SPECIFICATION, ["openAPIDocument"], IsText);
  }

  lemma ServiceShapeFine(p: Patterns, a: seq<Entry>, b: seq<Entry>, endpoint: seq<Entry>, c: seq<Entry>,
                         spec: seq<Entry>)
    requires ContainersArePublic(p) && Fine(p, a) && Fine(p, b) && Fine(p, endpoint) && Fine(p, c) && Fine(p, spec)
    ensures Fine(p, a + b + [Each("endpoints", endpoint)] + c + [Each("specifications", spec)])
  {
    ConcatFine(p, a, b);
    AppendEachFine(p, a + b, "endpoints", endpoint);
    ConcatFine(p, a + b + [Each("endpoints", endpoint)], c);
    AppendEachFine(p, a + b + [Each("endpoints", endpoint)] + c, "specifications", spec);
  }

  lemma ServiceIs()
    ensures SERVICE == Leaves(["id", "type", "description"], NotNull) + Leaves(["capabilities"], IsList) + [ENDPOINTS]
                       + Leaves(["documentationUri"], IsText) + [SPECIFICATIONS]
  {
  }

  lemma ServiceFine(p: Patterns)
    requires ContainersArePublic(p)
    ensures Fine(p, SERVICE)
  {
    LeavesFine(p, ["id", "type", "description"], NotNull);
    LeavesFine(p, ["capabilities"], IsList);
    LeavesFine(p, ["documentationUri"], IsText);
    EndpointFine(p);
    SpecificationFine(p);
    ServiceShapeFine(p, Leaves(["id", "type", "description"], NotNull), Leaves(["capabilities"], IsList), ENDPOINT,
                     Leaves(["documentationUri"], IsText), SPECIFICATION);
    ServiceIs();
  }

  lemma UcpShapeFine(p: Patterns, a: seq<Entry>, identity: seq<Entry>, service: seq<Entry>, spec: seq<Entry>)
    requires ContainersArePublic(p) && Fine(p, a) && Fine(p, identity) && Fine(p, service) && Fine(p, spec)
    ensures Fine(p, a + [Sub("serviceIdentity", identity)] + [Each("services", service)]
                    + [Each("specifications", spec)])
  {
    AppendSubFine(p, a, "serviceIdentity", identity);
    AppendEachFine(p, a + [Sub("serviceIdentity", identity)], "services", service);
    AppendEachFine(p, a + [Sub("serviceIdentity", identity)] + [Each("services", service)], "specifications", spec);
  }

  lemma UcpIs()
    ensures UCP == Leaves(["implementationVersion"], IsNonEmptyText) + [Sub("serviceIdentity", IDENTITY)]
                   + [Each("services", SERVICE)]
                   + [Each("specifications", SPECIFICATION + Leaves(["openAPIDocument"], IsText))]
  {
  }

  lemma UcpFine(p: Patterns)
    requires ContainersArePublic(p)
    ensures Fine(p, UCP)
  {
    LeavesFine(p, ["implementationVersion"], IsNonEmptyText);
    IdentityFine(p);
    ServiceFine(p);
    SpecificationFine(p);
    UcpShapeFine(p, Leaves(["implementationVersion"], IsNonEmptyText), IDENTITY, SERVICE,
                 SPECIFICATION + Leaves(["openAPIDocument"], IsText));
    UcpIs();
  }

  /** Nothing projected is flagged or holds anything flagged; every leaf is a leaf of the profile; and, when keys
      are plain, nothing is left out but what is tainted. */
  lemma ProjectionIsSound(p: Patterns, entries: seq<Entry>, fields: seq<Member>)
    requires Fine(p, entries)
    ensures var public := Project(entries, fields, "", set q | q in ScanFields(p, fields, ""));
            && !FieldsHaveSecret(p, public) && ScanFields(p, public, "") == [] && FieldsPart(public, fields)
            && (PlainFields(fields) ==> public == Untainted(p, entries, fields))
  {
    var secrets := set q | q in ScanFields(p, fields, "");
    var public := Project(entries, fields, "", secrets);
    ProjectIsClean(p, entries, fields, "", secrets);
    ScanFieldsFindsSecrets(p, public, "");
    ProjectIsPart(entries, fields, "", secrets);
    if PlainFields(fields) {
      ProjectExact(p, entries, fields, "", secrets);
    }
  }

  predicate Bounded(parsed: Value) { Within(parsed, MAX_DEPTH) && Nodes(parsed) <= MAX_NODES }

  /** The scan does not raise, and what it finds does not have the profile refused. */
  predicate ScanPasses(p: Patterns, fields: seq<Member>, rejectOnSecret: bool) {
    !TooManyFindings(p, Obj(fields)) && !(rejectOnSecret && FieldsHaveSecret(p, fields))
  }

  method QuarantineSecrets(p: Patterns, fields: seq<Member>, rejectOnSecret: bool)
    returns (result: Result<seq<string>, ProfileError>)
    ensures result.Ok? <==> ScanPasses(p, fields, rejectOnSecret)
    ensures result.Ok? ==> result.value == ScanFields(p, fields, "")
    ensures result.Err? ==>
              result.error == if TooManyFindings(p, Obj(fields)) then TooManySecrets else SecretsRefused
  {
    var scanned := ScanSecrets(p, Obj(fields));
    if scanned.Err? {
      return scanned;
    }
    ScanFieldsFindsSecrets(p, fields, "");
    if rejectOnSecret && scanned.value != [] {
      return Err(SecretsRefused);
    }
    return scanned;
  }

  /** The card parser. sourceHost says that the source URL has a host; others stands for the schema, version and
      authority validators, which only look and raise. */
  method ParseCard(p: Patterns, parsed: Value, sourceHost: bool, others: seq<Member> -> bool, rejectOnSecret: bool)
    returns (result: Result<Parsed, ParseError>)
    requires ContainersArePublic(p)
    ensures result.Ok? <==> && Bounded(parsed) && sourceHost && parsed.Obj?
                            && AuthorsAreText(parsed.fields) && others(parsed.fields)
                            && ScanPasses(p, parsed.fields, rejectOnSecret)
    ensures result.Err? ==>
              result.error == if !Bounded(parsed) then OutOfBounds
                              else if !sourceHost then BadSource
                              else if !parsed.Obj? then NotAnObject
                              else if !AuthorsAreText(parsed.fields) then BadAuthors
                              else if !others(parsed.fields) then Refused
                              else ScanFault(p, parsed.fields)
    ensures result.Ok? ==>
              && result.value.quarantined == ScanFields(p, parsed.fields, "")
              && ScanFields(p, result.value.public, "") == []
              && FieldsPart(result.value.public, parsed.fields)
              && (PlainFields(parsed.fields) ==> result.value.public == Untainted(p, CARD, parsed.fields))
  {
    var bounds := new BoundsCheck(MAX_DEPTH, MAX_NODES);
    var bounded := bounds.Walk(parsed, 0);
    if !bounded {
      return Err(OutOfBounds);
    }
    if !sourceHost {
      return Err(BadSource);
    }
    if !parsed.Obj? {
      return Err(NotAnObject);
    }
    var card := parsed.fields;
    if !AuthorsAreText(card) {
      return Err(BadAuthors);
    }
    if !others(card) {
      return Err(Refused);
    }
    var secrets := QuarantineSecrets(p, card, rejectOnSecret);
    if secrets.Err? {
      return Err(Secrets(secrets.error));
    }
    var public := ProjectCard(card, set q | q in secrets.value);
    CardFine(p);
    ProjectionIsSound(p, CARD, card);
    return Ok(Parsed(public, secrets.value));
  }

  function ScanFault(p: Patterns, fields: seq<Member>): ParseError {
    Secrets(if TooManyFindings(p, Obj(fields)) then TooManySecrets else SecretsRefused)
  }

  predicate VersionAllowed(profile: seq<Member>, allowed: set<string>) {
    var version := Lookup(profile, "specificationVersion");
    version.Some? && version.value.Str? && version.value.s in allowed
  }

  /** The version in front of a sound projection: it is not looked at, so it must not look like a secret. */
  lemma VersionInFront(p: Patterns, version: string, rest: seq<Member>, profile: seq<Member>)
    requires !p.name("specificationVersion") && !p.text(version)
    requires Lookup(profile, "specificationVersion") == Some(Str(version))
    requires !FieldsHaveSecret(p, rest) && FieldsPart(rest, profile)
    ensures var public := [Field("specificationVersion", Str(version))] + rest;
            ScanFields(p, public, "") == [] && FieldsPart(public, profile)
  {
    var first := Field("specificationVersion", Str(version));
    OneClean(p, first);
    OnePart(first, profile);
    ConcatHasSecret(p, [first], rest);
    ConcatFieldsPart([first], rest, profile);
    ScanFieldsFindsSecrets(p, [first] + rest, "");
  }

  /** The profile in standard shape, which is what the stages behind the bounds check speak of. */
  function StandardProfile(t: UcpNormalize.Texts, parsed: Value, sourceHost: Option<string>): Option<seq<Member>> {
    if sourceHost.None? then None
    else
      match UcpNormalize.Normalized(t, parsed, sourceHost.value)
      case Ok(Obj(fields)) => Some(fields)
      case _ => None
  }

  /** Why a profile has no standard shape; the size of what came is looked at first. */
  function StandardFault(t: UcpNormalize.Texts, parsed: Value, sourceHost: Option<string>): ParseError {
    if !Bounded(parsed) then OutOfBounds
    else if sourceHost.None? then BadSource
    else
      match UcpNormalize.Normalized(t, parsed, sourceHost.value)
      case Err(why) => Unnormal(why)
      case Ok(_) => NotAnObject
  }

  /** What a parsed UCP profile promises: behind the version, the projection is clean, part of the profile, and
      complete up to taint. */
  ghost predicate UcpSound(p: Patterns, profile: seq<Member>, r: Parsed) {
    && r.quarantined == ScanFields(p, profile, "")
    && ScanFields(p, r.public, "") == []
    && FieldsPart(r.public, profile)
    && |r.public| >= 1
    && Lookup(profile, "specificationVersion") == Some(r.public[0].val) && r.public[0].key == "specificationVersion"
    && (PlainFields(profile) ==> r.public[1..] == Untainted(p, UCP, profile))
  }

  /** The first stages of the UCP parser, up to the standard shape. */
  method Standardise(t: UcpNormalize.Texts, parsed: Value, sourceHost: Option<string>)
    returns (result: Result<seq<Member>, ParseError>)
    ensures result.Ok? <==> Bounded(parsed) && StandardProfile(t, parsed, sourceHost).Some?
    ensures result.Ok? ==> StandardProfile(t, parsed, sourceHost) == Some(result.value)
    ensures result.Err? ==> result.error == StandardFault(t, parsed, sourceHost)
  {
    var bounds := new BoundsCheck(MAX_DEPTH, MAX_NODES);
    var bounded := bounds.Walk(parsed, 0);
    if !bounded {
      return Err(OutOfBounds);
    }
    if sourceHost.None? {
      return Err(BadSource);
    }
    var normalized := UcpNormalize.Normalize(t, parsed, sourceHost.value);
    if normalized.Err? {
      return Err(Unnormal(normalized.error));
    }
    if !normalized.value.Obj? {
      return Err(NotAnObject);
    }
    return Ok(normalized.value.fields);
  }

  /** The UCP parser. The version is projected without looking at the scan, so the versions that are allowed must
      not look like secrets. */
  method ParseUcp(p: Patterns, t: UcpNormalize.Texts, parsed: Value, sourceHost: Option<string>, allowed: set<string>,
                  others: seq<Member> -> bool, rejectOnSecret: bool)
    returns (result: Result<Parsed, ParseError>)
    requires ContainersArePublic(p) && !p.name("specificationVersion")
    requires forall version :: version in allowed ==> !p.text(version)
    ensures var profile := StandardProfile(t, parsed, sourceHost);
            && (result.Ok? <==> && Bounded(parsed) && profile.Some?
                                && VersionAllowed(profile.value, allowed) && others(profile.value)
                                && ScanPasses(p, profile.value, rejectOnSecret))
            && (result.Err? ==>
                  result.error == if !Bounded(parsed) || profile.None? then StandardFault(t, parsed, sourceHost)
                                  else if !VersionAllowed(profile.value, allowed) then BadVersion
                                  else if !others(profile.value) then Refused
                                  else ScanFault(p, profile.value))
            && (result.Ok? ==> UcpSound(p, profile.value, result.value))
  {
    var standard := Standardise(t, parsed, sourceHost);
    if standard.Err? {
      return Err(standard.error);
    }
    var profile := standard.value;
    if !VersionAllowed(profile, allowed) {
      return Err(BadVersion);
    }
    if !others(profile) {
      return Err(Refused);
    }
    result := ProjectChecked(p, profile, allowed, rejectOnSecret);
  }

  /** The last two stages of the UCP parser. */
  method ProjectChecked(p: Patterns, profile: seq<Member>, allowed: set<string>, rejectOnSecret: bool)
    returns (result: Result<Parsed, ParseError>)
    requires ContainersArePublic(p) && !p.name("specificationVersion")
    requires (forall version :: version in allowed ==> !p.text(version)) && VersionAllowed(profile, allowed)
    ensures result.Ok? <==> ScanPasses(p, profile, rejectOnSecret)
    ensures result.Err? ==> result.error == ScanFault(p, profile)
    ensures result.Ok? ==> UcpSound(p, profile, result.value)
  {
    var version := Lookup(profile, "specificationVersion");
    var secrets := QuarantineSecrets(p, profile, rejectOnSecret);
    if secrets.Err? {
      return Err(Secrets(secrets.error));
    }
    var public := ProjectUcp(profile, version.value, set q | q in secrets.value);
    UcpFine(p);
    ProjectionIsSound(p, UCP, profile);
    VersionInFront(p, version.value.s, public[1..], profile);
    assert public == [Field("specificationVersion", version.value)] + public[1..];
    return Ok(Parsed(public, secrets.value));
  }
}
