/** Which members the two public projections can have, written out, and what becomes of each of them. */
module ProjectionMembers {
  import opened Wrappers
  import opened JsonValue
  import opened SecretScan
  import opened PublicProjection
  import UcpNormalize

  // ---------------------------------------------------------------- the allow-lists

  /** The way to a member: its keys from the top, with ITEM for "in each object of the list". */
  type Path = seq<string>

  const ITEM := "[]"

  /** The members that may be projected, by path and condition. */
  function Schema(entries: seq<Entry>, prefix: Path): seq<(Path, Kind)>
    decreases EntriesSize(entries)
  {
    if entries == [] then []
    else
      assert EntriesSize(entries) == 1 + EntrySize(entries[0]) + EntriesSize(entries[1..]);
      (match entries[0]
       case Leaf(key, kind) => [(prefix + [key], kind)]
       case Sub(key, inner) => Schema(inner, prefix + [key])
       case Each(key, inner) => Schema(inner, prefix + [key, ITEM]))
      + Schema(entries[1..], prefix)
  }

  lemma {:induction false} SchemaConcat(a: seq<Entry>, b: seq<Entry>, prefix: Path)
    ensures Schema(a + b, prefix) == Schema(a, prefix) + Schema(b, prefix)
  {
    if a == [] {
      assert a + b == b;
    } else {
      assert (a + b)[1..] == a[1..] + b;
      SchemaConcat(a[1..], b, prefix);
    }
  }

  lemma {:induction false} SchemaLeaves(keys: seq<string>, kind: Kind, prefix: Path)
    ensures Schema(Leaves(keys, kind), prefix) == Listed(prefix, keys, kind)
  {
    if keys != [] {
      assert Leaves(keys, kind)[1..] == Leaves(keys[1..], kind);
      SchemaLeaves(keys[1..], kind, prefix);
    }
  }

  /** These keys at this place, all under one condition. */
  function Listed(prefix: Path, keys: seq<string>, kind: Kind): (r: seq<(Path, Kind)>)
    ensures |r| == |keys| && forall i :: 0 <= i < |r| ==> r[i] == (prefix + [keys[i]], kind)
  {
    seq(|keys|, i requires 0 <= i < |keys| => (prefix + [keys[i]], kind))
  }

  lemma SchemaSub(key: string, inner: seq<Entry>, prefix: Path)
    ensures Schema([Sub(key, inner)], prefix) == Schema(inner, prefix + [key])
    ensures Schema([Each(key, inner)], prefix) == Schema(inner, prefix + [key, ITEM])
  {
    assert [Sub(key, inner)][1..] == [] && [Each(key, inner)][1..] == [];
  }

  lemma AppendSub(a: seq<Entry>, key: string, inner: seq<Entry>, prefix: Path)
    ensures Schema(a + [Sub(key, inner)], prefix) == Schema(a, prefix) + Schema(inner, prefix + [key])
    ensures Schema(a + [Each(key, inner)], prefix) == Schema(a, prefix) + Schema(inner, prefix + [key, ITEM])
  {
    SchemaConcat(a, [Sub(key, inner)], prefix);
    SchemaConcat(a, [Each(key, inner)], prefix);
    SchemaSub(key, inner, prefix);
  }

  lemma AppendLeaves(a: seq<Entry>, keys: seq<string>, kind: Kind, prefix: Path)
    ensures Schema(a + Leaves(keys, kind), prefix) == Schema(a, prefix) + Listed(prefix, keys, kind)
  {
    SchemaConcat(a, Leaves(keys, kind), prefix);
    SchemaLeaves(keys, kind, prefix);
  }

  /** The members of a public card. */
  lemma CardSchema()
    ensures Schema(CARD, []) ==
            Listed([], ["name", "url", "version", "description", "documentationUrl"], NotNull)
            + Listed(["provider"], ["organization", "url"], NotNull)
            + (Listed(["skills", ITEM], ["id", "name", "description"], NotNull)
               + Listed(["skills", ITEM], ["tags", "examples", "inputModes", "outputModes"], IsList))
            + Listed(["capabilities"], ["streaming", "pushNotifications", "stateTransitionHistory"], IsBoolean)
            + Listed([], ["defaultInputModes", "defaultOutputModes"], IsList)
            + Listed(["agents"], ["author"], IsList)
  {
    var top := Leaves(["name", "url", "version", "description", "documentationUrl"], NotNull);
    var provider := Leaves(["organization", "url"], NotNull);
    var abilities := Leaves(["streaming", "pushNotifications", "stateTransitionHistory"], IsBoolean);
    var modes, agents := Leaves(["defaultInputModes", "defaultOutputModes"], IsList), Leaves(["author"], IsList);
    CardIs(top, provider, abilities, modes, agents);
    CardShape(top, provider, SKILL, abilities, modes, agents);
    SchemaLeaves(["author"], IsList, ["agents"]);
    SchemaLeaves(["defaultInputModes", "defaultOutputModes"], IsList, []);
    SchemaLeaves(["streaming", "pushNotifications", "stateTransitionHistory"], IsBoolean, ["capabilities"]);
    SkillSchema(["skills", ITEM]);
    SchemaLeaves(["organization", "url"], NotNull, ["provider"]);
    SchemaLeaves(["name", "url", "version", "description", "documentationUrl"], NotNull, []);
  }

  lemma CardIs(top: seq<Entry>, provider: seq<Entry>, abilities: seq<Entry>, modes: seq<Entry>, agents: seq<Entry>)
    requires top == Leaves(["name", "url", "version", "description", "documentationUrl"], NotNull)
    requires provider == Leaves(["organization", "url"], NotNull)
    requires abilities == Leaves(["streaming", "pushNotifications", "stateTransitionHistory"], IsBoolean)
    requires modes == Leaves(["defaultInputModes", "defaultOutputModes"], IsList)
    requires agents == Leaves(["author"], IsList)
    ensures CARD == top + [Sub("provider", provider)] + [Each("skills", SKILL)] + [Sub("capabilities", abilities)]
                    + modes + [Sub("agents", agents)]
  {
    assert agents == [Leaf("author", IsList)];
  }

  lemma CardShape(top: seq<Entry>, provider: seq<Entry>, skill: seq<Entry>, abilities: seq<Entry>, modes: seq<Entry>,
                  agents: seq<Entry>)
    ensures Schema(top + [Sub("provider", provider)] + [Each("skills", skill)] + [Sub("capabilities", abilities)]
                   + modes + [Sub("agents", agents)], []) ==
            Schema(top, []) + Schema(provider, ["provider"]) + Schema(skill, ["skills", ITEM])
            + Schema(abilities, ["capabilities"]) + Schema(modes, []) + Schema(agents, ["agents"])
  {
    var a := top + [Sub("provider", provider)];
    var b := a + [Each("skills", skill)];
    var c := b + [Sub("capabilities", abilities)];
    AppendSub(c + modes, "agents", agents, []);
    SchemaConcat(c, modes, []);
    AppendSub(b, "capabilities", abilities, []);
    AppendSub(a, "skills", skill, []);
    AppendSub(top, "provider", provider, []);
    FromTheTop("agents");
    FromTheTop("capabilities");
    FromTheTop("skills");
    FromTheTop("provider");
  }

  lemma FromTheTop(key: string)
    ensures [] + [key] == [key] && [] + [key, ITEM] == [key, ITEM]
  {
  }

  lemma SkillSchema(prefix: Path)
    ensures Schema(SKILL, prefix) == Listed(prefix, ["id", "name", "description"], NotNull)
                                     + Listed(prefix, ["tags", "examples", "inputModes", "outputModes"], IsList)
  {
    AppendLeaves(Leaves(["id", "name", "description"], NotNull), ["tags", "examples", "inputModes", "outputModes"],
                 IsList, prefix);
    SchemaLeaves(["id", "name", "description"], NotNull, prefix);
  }

  lemma ServiceSchema(prefix: Path)
    ensures Schema(SERVICE, prefix) ==
            Listed(prefix, ["id", "type", "description"], NotNull) + Listed(prefix, ["capabilities"], IsList)
            + (Listed(prefix + ["endpoints", ITEM], ["uri", "protocol"], NotNull)
               + Listed(prefix + ["endpoints", ITEM], ["version"], IsText))
            + Listed(prefix, ["documentationUri"], IsText)
            + Listed(prefix + ["specifications", ITEM], ["id", "label", "version", "specUrl", "schemaUrl"], NotNull)
  {
    var top := Leaves(["id", "type", "description"], NotNull);
    var a := top + Leaves(["capabilities"], IsList);
    var b := a + [Each("endpoints", ENDPOINT)];
    var c := b + Leaves(["documentationUri"], IsText);
    assert SERVICE == c + [Each("specifications", SPECIFICATION)] by {
      assert Leaves(["capabilities"], IsList) == [Leaf("capabilities", IsList)];
      assert Leaves(["documentationUri"], IsText) == [Leaf("documentationUri", IsText)];
    }
    AppendSub(c, "specifications", SPECIFICATION, prefix);
    SchemaLeaves(["id", "label", "version", "specUrl", "schemaUrl"], NotNull, prefix + ["specifications", ITEM]);
    AppendLeaves(b, ["documentationUri"], IsText, prefix);
    AppendSub(a, "endpoints", ENDPOINT, prefix);
    AppendLeaves(Leaves(["uri", "protocol"], NotNull), ["version"], IsText, prefix + ["endpoints", ITEM]);
    SchemaLeaves(["uri", "protocol"], NotNull, prefix + ["endpoints", ITEM]);
    AppendLeaves(top, ["capabilities"], IsList, prefix);
    SchemaLeaves(["id", "type", "description"], NotNull, prefix);
  }

  lemma IdentitySchema(prefix: Path)
    ensures Schema(IDENTITY, prefix) ==
            Listed(prefix, ["id", "name", "description"], NotNull)
            + Listed(prefix + ["owner"], ["name", "url"], NotNull) + Listed(prefix, ["serviceArea"], IsObject)
  {
    var top := Leaves(["id", "name", "description"], NotNull);
    var a := top + [Sub("owner", Leaves(["name", "url"], NotNull))];
    assert IDENTITY == a + Leaves(["serviceArea"], IsObject) by {
      assert Leaves(["serviceArea"], IsObject) == [Leaf("serviceArea", IsObject)];
    }
    AppendLeaves(a, ["serviceArea"], IsObject, prefix);
    AppendSub(top, "owner", Leaves(["name", "url"], NotNull), prefix);
    SchemaLeaves(["name", "url"], NotNull, prefix + ["owner"]);
    SchemaLeaves(["id", "name", "description"], NotNull, prefix);
  }

  /** The members of a public UCP profile, behind its version. */
  lemma UcpSchema()
    ensures Schema(UCP, []) ==
            Listed([], ["implementationVersion"], IsNonEmptyText)
            + Schema(IDENTITY, ["serviceIdentity"])
            + Schema(SERVICE, ["services", ITEM])
            + (Listed(["specifications", ITEM], ["id", "label", "version", "specUrl", "schemaUrl"], NotNull)
               + Listed(["specifications", ITEM], ["openAPIDocument"], IsText))
  {
    var top, specification := Leaves(["implementationVersion"], IsNonEmptyText),
                              SPECIFICATION + Leaves(["openAPIDocument"], IsText);
    UcpIs(top, specification);
    UcpShape(top, IDENTITY, SERVICE, specification);
    AppendLeaves(SPECIFICATION, ["openAPIDocument"], IsText, ["specifications", ITEM]);
    SchemaLeaves(["id", "label", "version", "specUrl", "schemaUrl"], NotNull, ["specifications", ITEM]);
    SchemaLeaves(["implementationVersion"], IsNonEmptyText, []);
  }

  lemma UcpIs(top: seq<Entry>, specification: seq<Entry>)
    requires top == Leaves(["implementationVersion"], IsNonEmptyText)
    requires specification == SPECIFICATION + Leaves(["openAPIDocument"], IsText)
    ensures UCP == top + [Sub("serviceIdentity", IDENTITY)] + [Each("services", SERVICE)]
                   + [Each("specifications", specification)]
  {
    assert top == [Leaf("implementationVersion", IsNonEmptyText)];
  }

  lemma UcpShape(top: seq<Entry>, identity: seq<Entry>, service: seq<Entry>, specification: seq<Entry>)
    ensures Schema(top + [Sub("serviceIdentity", identity)] + [Each("services", service)]
                   + [Each("specifications", specification)], []) ==
            Schema(top, []) + Schema(identity, ["serviceIdentity"]) + Schema(service, ["services", ITEM])
            + Schema(specification, ["specifications", ITEM])
  {
    var a := top + [Sub("serviceIdentity", identity)];
    var b := a + [Each("services", service)];
    AppendSub(b, "specifications", specification, []);
    AppendSub(a, "services", service, []);
    AppendSub(top, "serviceIdentity", identity, []);
    FromTheTop("specifications");
    FromTheTop("services");
    FromTheTop("serviceIdentity");
  }

  // ---------------------------------------------------------------- what becomes of a member

  ghost predicate DistinctKeys(entries: seq<Entry>) {
    forall i, j :: 0 <= i < j < |entries| ==> entries[i].key != entries[j].key
  }

  lemma CardKeysDistinct()
    ensures DistinctKeys(CARD)
  {
  }

  lemma PartKeysDistinct()
    ensures DistinctKeys(SKILL) && DistinctKeys(UCP) && DistinctKeys(IDENTITY)
  {
  }

  lemma ServiceKeysDistinct()
    ensures DistinctKeys(SERVICE) && DistinctKeys(ENDPOINT)
    ensures DistinctKeys(SPECIFICATION) && DistinctKeys(SPECIFICATION + Leaves(["openAPIDocument"], IsText))
  {
  }

  /** The path itself, or something below it, is quarantined. */
  ghost predicate Quarantined(secrets: set<string>, path: string) {
    exists q :: q in secrets && (q == path || path + "." <= q)
  }

  /** What the condition on a leaf asks for. */
  predicate Meets(v: Value, kind: Kind) {
    match kind
    case NotNull => v != Null
    case IsText => v.Str?
    case IsNonEmptyText => v.Str? && v.s != ""
    case IsList => v.Arr?
    case IsBoolean => v.Bool?
    case IsObject => v.Obj?
  }

  lemma {:induction false} OtherKeyNone(entries: seq<Entry>, fields: seq<Member>, path: string, secrets: set<string>,
                                        key: string)
    requires forall i :: 0 <= i < |entries| ==> entries[i].key != key
    ensures Lookup(Project(entries, fields, path, secrets), key) == None
  {
    if entries != [] {
      OtherKeyNone(entries[1..], fields, path, secrets, key);
      UcpNormalize.LookupConcat(ProjectEntry(entries[0], fields, path, secrets),
                                Project(entries[1..], fields, path, secrets), key);
      OneMember(entries[0], fields, path, secrets);
      UcpNormalize.LookupNone(ProjectEntry(entries[0], fields, path, secrets), key);
    }
  }

  lemma OneMember(e: Entry, fields: seq<Member>, path: string, secrets: set<string>)
    ensures |ProjectEntry(e, fields, path, secrets)| <= 1
    ensures ProjectEntry(e, fields, path, secrets) != [] ==> ProjectEntry(e, fields, path, secrets)[0].key == e.key
  {
  }

  /** What is projected for a key is what its entry projects. */
  lemma {:induction false} OwnKey(entries: seq<Entry>, k: nat, fields: seq<Member>, path: string, secrets: set<string>)
    requires DistinctKeys(entries) && k < |entries|
    ensures Lookup(Project(entries, fields, path, secrets), entries[k].key) ==
            Lookup(ProjectEntry(entries[k], fields, path, secrets), entries[k].key)
  {
    var own := ProjectEntry(entries[0], fields, path, secrets);
    UcpNormalize.LookupConcat(own, Project(entries[1..], fields, path, secrets), entries[k].key);
    OneMember(entries[0], fields, path, secrets);
    if k == 0 {
      OtherKeyNone(entries[1..], fields, path, secrets, entries[k].key);
    } else {
      UcpNormalize.LookupNone(own, entries[k].key);
      OwnKey(entries[1..], k - 1, fields, path, secrets);
    }
  }

  lemma LookupOne(f: Member)
    ensures Lookup([f], f.key) == Some(f.val)
  {
  }

  /** A leaf is there, as it is in the profile, exactly if it meets its condition and neither it nor anything below
      it is quarantined. */
  lemma LeafSays(entries: seq<Entry>, k: nat, fields: seq<Member>, path: string, secrets: set<string>)
    requires DistinctKeys(entries) && k < |entries| && entries[k].Leaf?
    ensures var key, found := entries[k].key, Lookup(fields, entries[k].key);
            var at := if path == "" then key else path + "." + key;
            Lookup(Project(entries, fields, path, secrets), key) ==
            if found.Some? && Meets(found.value, entries[k].kind) && !Quarantined(secrets, at) then found else None
  {
    OwnKey(entries, k, fields, path, secrets);
    var out := ProjectEntry(entries[k], fields, path, secrets);
    var at := Child(path, entries[k].key);
    assert Skip(secrets, at) <==> Quarantined(secrets, at);
    if out != [] {
      LookupOne(out[0]);
      assert out == [out[0]];
    }
  }

  /** An object is there exactly if the profile has an object and something of it is projected. */
  lemma SubSays(entries: seq<Entry>, k: nat, fields: seq<Member>, path: string, secrets: set<string>)
    requires DistinctKeys(entries) && k < |entries| && entries[k].Sub?
    ensures var key, found := entries[k].key, Lookup(fields, entries[k].key);
            var at := if path == "" then key else path + "." + key;
            Lookup(Project(entries, fields, path, secrets), key) ==
            if found.Some? && found.value.Obj? && Project(entries[k].entries, found.value.fields, at, secrets) != []
            then Some(Obj(Project(entries[k].entries, found.value.fields, at, secrets))) else None
  {
    OwnKey(entries, k, fields, path, secrets);
    var out := ProjectEntry(entries[k], fields, path, secrets);
    if out != [] {
      LookupOne(out[0]);
      assert out == [out[0]];
    }
  }

  /** The parts of a list that are objects and of which something is projected, in order. */
  function Parts(entries: seq<Entry>, items: seq<Value>, path: string, secrets: set<string>): seq<Value> {
    if items == [] then []
    else
      var n := |items| - 1;
      var at := path + "." + Decimal(n);
      Parts(entries, items[..n], path, secrets)
      + if items[n].Obj? && Project(entries, items[n].fields, at, secrets) != []
        then [Obj(Project(entries, items[n].fields, at, secrets))] else []
  }

  lemma {:induction false} PartsAre(entries: seq<Entry>, items: seq<Value>, first: nat, path: string,
                                    secrets: set<string>, i: nat)
    requires i < |items|
    ensures ProjectItems(entries, items[..i + 1], first, path, secrets) ==
            ProjectItems(entries, items[..i], first, path, secrets)
            + ProjectItem(entries, items[i], first + i, path, secrets)
  {
    if i == 0 {
      assert items[..1][1..] == [] && items[..0] == [];
    } else {
      assert items[..i + 1][1..] == items[1..][..i] && items[..i][1..] == items[1..][..i - 1];
      PartsAre(entries, items[1..], first + 1, path, secrets, i - 1);
      Join(ProjectItem(entries, items[0], first, path, secrets),
           ProjectItems(entries, items[1..][..i - 1], first + 1, path, secrets),
           ProjectItem(entries, items[i], first + i, path, secrets));
    }
  }

  lemma Join(a: seq<Value>, b: seq<Value>, c: seq<Value>)
    ensures a + (b + c) == (a + b) + c
  {
  }

  lemma {:induction false} ItemsAreParts(entries: seq<Entry>, items: seq<Value>, path: string, secrets: set<string>)
    ensures ProjectItems(entries, items, 0, path, secrets) == Parts(entries, items, path, secrets)
  {
    if items != [] {
      var n := |items| - 1;
      ItemsAreParts(entries, items[..n], path, secrets);
      PartsAre(entries, items, 0, path, secrets, n);
      assert items[..n + 1] == items;
    }
  }

  /** A list is there exactly if the profile has a list and something of it is projected. */
  lemma EachSays(entries: seq<Entry>, k: nat, fields: seq<Member>, path: string, secrets: set<string>)
    requires DistinctKeys(entries) && k < |entries| && entries[k].Each?
    ensures var key, found := entries[k].key, Lookup(fields, entries[k].key);
            var at := if path == "" then key else path + "." + key;
            Lookup(Project(entries, fields, path, secrets), key) ==
            if found.Some? && found.value.Arr? && Parts(entries[k].entries, found.value.items, at, secrets) != []
            then Some(Arr(Parts(entries[k].entries, found.value.items, at, secrets))) else None
  {
    OwnKey(entries, k, fields, path, secrets);
    var found, out := Lookup(fields, entries[k].key), ProjectEntry(entries[k], fields, path, secrets);
    if found.Some? && found.value.Arr? {
      ItemsAreParts(entries[k].entries, found.value.items, Child(path, entries[k].key), secrets);
    }
    if out != [] {
      LookupOne(out[0]);
      assert out == [out[0]];
    }
  }

  /** Nothing else is ever there. */
  lemma NothingElse(entries: seq<Entry>, fields: seq<Member>, path: string, secrets: set<string>, f: Member)
    requires f in Project(entries, fields, path, secrets)
    ensures exists k :: 0 <= k < |entries| && entries[k].key == f.key
  {
    if forall k :: 0 <= k < |entries| ==> entries[k].key != f.key {
      OtherKeyNone(entries, fields, path, secrets, f.key);
      NoneIsNone(Project(entries, fields, path, secrets), f);
    }
  }

  lemma {:induction false} NoneIsNone(fields: seq<Member>, f: Member)
    requires Lookup(fields, f.key) == None
    ensures f !in fields
  {
    if fields != [] {
      NoneIsNone(fields[1..], f);
    }
  }
}
