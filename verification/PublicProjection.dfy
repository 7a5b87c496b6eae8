/** The public projections of an A2A Agent Card and of a UCP profile, which leave out what the scan flagged. */
module PublicProjection {
  import opened Wrappers
  import opened JsonValue
  import opened SecretScan

  // ---------------------------------------------------------------- what is projected

  /** The condition on a leaf beside not being skipped. */
  datatype Kind = NotNull | IsText | IsNonEmptyText | IsList | IsBoolean | IsObject

  /** A projected member: a leaf copied as it is, an object of entries, or a list of such objects. */
  datatype Entry =
    | Leaf(key: string, kind: Kind)
    | Sub(key: string, entries: seq<Entry>)
    | Each(key: string, entries: seq<Entry>)

  function Leaves(keys: seq<string>, kind: Kind): seq<Entry> {
    seq(|keys|, i requires 0 <= i < |keys| => Leaf(keys[i], kind))
  }

  const SKILL: seq<Entry> :=
    Leaves(["id", "name", "description"], NotNull)
    + Leaves(["tags", "examples", "inputModes", "outputModes"], IsList)

  const CARD: seq<Entry> :=
    Leaves(["name", "url", "version", "description", "documentationUrl"], NotNull)
    + [Sub("provider", Leaves(["organization", "url"], NotNull)),
       Each("skills", SKILL),
       Sub("capabilities", Leaves(["streaming", "pushNotifications", "stateTransitionHistory"], IsBoolean))]
    + Leaves(["defaultInputModes", "defaultOutputModes"], IsList)
    + [Sub("agents", [Leaf("author", IsList)])]

  const ENDPOINT: seq<Entry> := Leaves(["uri", "protocol"], NotNull) + Leaves(["version"], IsText)

  const SPECIFICATION: seq<Entry> := Leaves(["id", "label", "version", "specUrl", "schemaUrl"], NotNull)

  const SERVICE: seq<Entry> :=
    Leaves(["id", "type", "description"], NotNull)
    + [Leaf("capabilities", IsList), Each("endpoints", ENDPOINT), Leaf("documentationUri", IsText),
       Each("specifications", SPECIFICATION)]

  const IDENTITY: seq<Entry> :=
    Leaves(["id", "name", "description"], NotNull)
    + [Sub("owner", Leaves(["name", "url"], NotNull)), Leaf("serviceArea", IsObject)]

  /** Everything but specificationVersion, which is projected without a check. */
  const UCP: seq<Entry> :=
    [Leaf("implementationVersion", IsNonEmptyText), Sub("serviceIdentity", IDENTITY), Each("services", SERVICE),
     Each("specifications", SPECIFICATION + Leaves(["openAPIDocument"], IsText))]

  predicate Accepts(kind: Kind, v: Value) {
    match kind
    case NotNull => !v.Null?
    case IsText => v.Str?
    case IsNonEmptyText => v.Str? && v.s != ""
    case IsList => v.Arr?
    case IsBoolean => v.Bool?
    case IsObject => v.Obj?
  }

  /** The path itself or something below it is quarantined. */
  predicate Skip(secrets: set<string>, path: string) {
    path in secrets || exists q :: q in secrets && Below(q, path)
  }

  function EntrySize(e: Entry): nat {
    match e
    case Leaf(_, _) => 1
    case Sub(_, entries) => 1 + EntriesSize(entries)
    case Each(_, entries) => 1 + EntriesSize(entries)
  }

  function EntriesSize(entries: seq<Entry>): nat {
    if entries == [] then 0 else 1 + EntrySize(entries[0]) + EntriesSize(entries[1..])
  }

  /** The projection by path texts, as the parsers do it. */
  function Project(entries: seq<Entry>, fields: seq<Member>, path: string, secrets: set<string>): seq<Member>
    decreases EntriesSize(entries), 0
  {
    if entries == [] then []
    else ProjectEntry(entries[0], fields, path, secrets) + Project(entries[1..], fields, path, secrets)
  }

  function ProjectEntry(e: Entry, fields: seq<Member>, path: string, secrets: set<string>): seq<Member>
    decreases EntrySize(e), 0
  {
    match Lookup(fields, e.key)
    case None => []
    case Some(v) =>
      match e
      case Leaf(key, kind) => if Accepts(kind, v) && !Skip(secrets, Child(path, key)) then [Field(key, v)] else []
      case Sub(key, entries) =>
        if v.Obj? then Wrapped(key, Project(entries, v.fields, Child(path, key), secrets)) else []
      case Each(key, entries) =>
        if v.Arr? then WrappedList(key, ProjectItems(entries, v.items, 0, Child(path, key), secrets)) else []
  }

  /** The projected objects of a list; what is not an object, and what projects to nothing, is left out. */
  function ProjectItems(entries: seq<Entry>, items: seq<Value>, first: nat, path: string,
                        secrets: set<string>): seq<Value>
    decreases EntriesSize(entries), 2 + |items|
  {
    if items == [] then []
    else
      ProjectItem(entries, items[0], first, path, secrets) + ProjectItems(entries, items[1..], first + 1, path, secrets)
  }

  function ProjectItem(entries: seq<Entry>, item: Value, index: nat, path: string, secrets: set<string>): seq<Value>
    decreases EntriesSize(entries), 1
  {
    if item.Obj? then Kept(Project(entries, item.fields, Element(path, index), secrets)) else []
  }

  function Wrapped(key: string, fields: seq<Member>): seq<Member> {
    if fields == [] then [] else [Field(key, Obj(fields))]
  }

  function WrappedList(key: string, items: seq<Value>): seq<Member> {
    if items == [] then [] else [Field(key, Arr(items))]
  }

  function Kept(fields: seq<Member>): seq<Value> { if fields == [] then [] else [Obj(fields)] }

  lemma {:induction false} ProjectConcat(a: seq<Entry>, b: seq<Entry>, fields: seq<Member>, path: string,
                                         secrets: set<string>)
    ensures Project(a + b, fields, path, secrets)
         == Project(a, fields, path, secrets) + Project(b, fields, path, secrets)
  {
    if a == [] {
      assert a + b == b;
    } else {
      assert (a + b)[1..] == a[1..] + b;
      ProjectConcat(a[1..], b, fields, path, secrets);
    }
  }

  /** Adding one more entry adds what that entry projects. */
  lemma ProjectAppend(a: seq<Entry>, e: Entry, fields: seq<Member>, path: string, secrets: set<string>)
    ensures Project(a + [e], fields, path, secrets)
         == Project(a, fields, path, secrets) + ProjectEntry(e, fields, path, secrets)
  {
    assert [e][1..] == [];
    ProjectConcat(a, [e], fields, path, secrets);
  }

  // ---------------------------------------------------------------- nothing flagged gets out

  /** No object or list on the way to a leaf is itself named like a secret. */
  ghost predicate PublicNames(p: Patterns, entries: seq<Entry>)
    decreases EntriesSize(entries), 1
  {
    entries != [] ==> PublicName(p, entries[0]) && PublicNames(p, entries[1..])
  }

  ghost predicate PublicName(p: Patterns, e: Entry)
    decreases EntrySize(e), 1
  {
    && e.key != ""
    && match e
       case Leaf(_, _) => true
       case Sub(key, entries) => !p.name(key) && PublicNames(p, entries)
       case Each(key, entries) => !p.name(key) && PublicNames(p, entries)
  }

  ghost predicate AllIn(paths: seq<string>, secrets: set<string>) {
    forall q :: q in paths ==> q in secrets
  }

  lemma {:induction false} LookupScanned(p: Patterns, fields: seq<Member>, key: string, path: string)
    requires Lookup(fields, key).Some?
    ensures forall q :: q in ScanField(p, Field(key, Lookup(fields, key).value), path) ==>
              q in ScanFields(p, fields, path)
  {
    if fields[0].key != key {
      LookupScanned(p, fields[1..], key, path);
    } else {
      assert fields[0] == Field(key, Lookup(fields, key).value);
    }
  }

  /** A tainted member is skipped wherever its findings are among the quarantined paths. */
  lemma TaintedIsSkipped(p: Patterns, f: Member, path: string, secrets: set<string>)
    requires Child(path, f.key) != "" && Tainted(p, f) && AllIn(ScanField(p, f, path), secrets)
    ensures Skip(secrets, Child(path, f.key))
  {
    ScanFieldFindsSecrets(p, f, path);
    var q := ScanField(p, f, path)[0];
    assert q in ScanField(p, f, path);
    ScannedFieldAtOrBelow(p, f, path, q);
  }

  lemma {:induction false} ConcatHasSecret(p: Patterns, a: seq<Member>, b: seq<Member>)
    ensures FieldsHaveSecret(p, a + b) == (FieldsHaveSecret(p, a) || FieldsHaveSecret(p, b))
  {
    if a == [] {
      assert a + b == b;
    } else {
      assert (a + b)[1..] == a[1..] + b;
      ConcatHasSecret(p, a[1..], b);
    }
  }

  lemma {:induction false} ProjectIsClean(p: Patterns, entries: seq<Entry>, fields: seq<Member>, path: string,
                                          secrets: set<string>)
    requires PublicNames(p, entries) && AllIn(ScanFields(p, fields, path), secrets)
    ensures !FieldsHaveSecret(p, Project(entries, fields, path, secrets))
    decreases EntriesSize(entries), 2
  {
    if entries != [] {
      EntryIsClean(p, entries[0], fields, path, secrets);
      ProjectIsClean(p, entries[1..], fields, path, secrets);
      ConcatHasSecret(p, ProjectEntry(entries[0], fields, path, secrets), Project(entries[1..], fields, path, secrets));
    }
  }

  lemma {:induction false} EntryIsClean(p: Patterns, e: Entry, fields: seq<Member>, path: string, secrets: set<string>)
    requires PublicName(p, e) && AllIn(ScanFields(p, fields, path), secrets)
    ensures !FieldsHaveSecret(p, ProjectEntry(e, fields, path, secrets))
    decreases EntrySize(e), 2
  {
    var found := Lookup(fields, e.key);
    if found.Some? {
      var f := Field(e.key, found.value);
      LookupScanned(p, fields, e.key, path);
      assert AllIn(ScanField(p, f, path), secrets);
      match e
      case Leaf(key, kind) =>
        if Tainted(p, f) {
          TaintedIsSkipped(p, f, path, secrets);
        }
        assert [f][1..] == [];
      case Sub(key, entries) =>
        if f.val.Obj? {
          assert ScanField(p, f, path) == ScanFields(p, f.val.fields, Child(path, key));
          ProjectIsClean(p, entries, f.val.fields, Child(path, key), secrets);
          OneClean(p, Field(key, Obj(Project(entries, f.val.fields, Child(path, key), secrets))));
        }
      case Each(key, entries) =>
        if f.val.Arr? {
          assert ScanField(p, f, path) == ScanItems(p, f.val.items, 0, Child(path, key));
          ItemsAreClean(p, entries, f.val.items, 0, Child(path, key), secrets);
          OneClean(p, Field(key, Arr(ProjectItems(entries, f.val.items, 0, Child(path, key), secrets))));
        }
    }
  }

  lemma OneClean(p: Patterns, f: Member)
    requires !Tainted(p, f)
    ensures !FieldsHaveSecret(p, [f])
  {
    assert [f][1..] == [];
  }

  lemma {:induction false} ItemsAreClean(p: Patterns, entries: seq<Entry>, items: seq<Value>, first: nat, path: string,
                                         secrets: set<string>)
    requires PublicNames(p, entries) && AllIn(ScanItems(p, items, first, path), secrets)
    ensures !ItemsHaveSecret(p, ProjectItems(entries, items, first, path, secrets))
    decreases EntriesSize(entries), 3 + |items|
  {
    if items != [] {
      var rest := ProjectItems(entries, items[1..], first + 1, path, secrets);
      assert ScanItems(p, items, first, path)
          == Scan(p, items[0], Element(path, first)) + ScanItems(p, items[1..], first + 1, path);
      ItemsAreClean(p, entries, items[1..], first + 1, path, secrets);
      if items[0].Obj? {
        var kept := Project(entries, items[0].fields, Element(path, first), secrets);
        assert Scan(p, items[0], Element(path, first)) == ScanFields(p, items[0].fields, Element(path, first));
        ProjectIsClean(p, entries, items[0].fields, Element(path, first), secrets);
        assert ([Obj(kept)] + rest)[1..] == rest;
      }
      assert [] + rest == rest;
    }
  }

  // ---------------------------------------------------------------- nothing is made up

  /** out is part of src: equal to it, or an object of parts of its members, or a list of parts of some of its
      elements in their order. */
  ghost predicate Part(out: Value, src: Value)
    decreases Size(out) + Size(src), 0
  {
    || out == src
    || (out.Obj? && src.Obj? && FieldsPart(out.fields, src.fields))
    || (out.Arr? && src.Arr? && ItemsPart(out.items, src.items))
  }

  ghost predicate FieldsPart(out: seq<Member>, src: seq<Member>)
    decreases SizeFields(out) + SizeFields(src), 1
  {
    out == [] || (
      && Lookup(src, out[0].key).Some?
      && (LookupSize(src, out[0].key);
          assert SizeField(out[0]) == 1 + Size(out[0].val);
          Part(out[0].val, Lookup(src, out[0].key).value))
      && FieldsPart(out[1..], src))
  }

  ghost predicate ItemsPart(out: seq<Value>, src: seq<Value>)
    decreases SizeItems(out) + SizeItems(src), 1
  {
    out == [] || (src != [] &&
      ((Part(out[0], src[0]) && ItemsPart(out[1..], src[1..])) || ItemsPart(out, src[1..])))
  }

  lemma {:induction false} LookupSize(fields: seq<Member>, key: string)
    requires Lookup(fields, key).Some?
    ensures Size(Lookup(fields, key).value) < SizeFields(fields)
  {
    assert SizeField(fields[0]) == 1 + Size(fields[0].val);
    if fields[0].key != key {
      LookupSize(fields[1..], key);
    }
  }

  lemma {:induction false} ConcatFieldsPart(a: seq<Member>, b: seq<Member>, src: seq<Member>)
    requires FieldsPart(a, src) && FieldsPart(b, src)
    ensures FieldsPart(a + b, src)
  {
    if a == [] {
      assert a + b == b;
    } else {
      assert (a + b)[1..] == a[1..] + b;
      ConcatFieldsPart(a[1..], b, src);
    }
  }

  lemma {:induction false} ProjectIsPart(entries: seq<Entry>, fields: seq<Member>, path: string, secrets: set<string>)
    ensures FieldsPart(Project(entries, fields, path, secrets), fields)
    decreases EntriesSize(entries), 2
  {
    if entries != [] {
      EntryIsPart(entries[0], fields, path, secrets);
      ProjectIsPart(entries[1..], fields, path, secrets);
      ConcatFieldsPart(ProjectEntry(entries[0], fields, path, secrets), Project(entries[1..], fields, path, secrets),
                       fields);
    }
  }

  lemma OnePart(f: Member, src: seq<Member>)
    requires Lookup(src, f.key).Some? && Part(f.val, Lookup(src, f.key).value)
    ensures FieldsPart([f], src)
  {
    assert [f][1..] == [];
  }

  lemma {:induction false} EntryIsPart(e: Entry, fields: seq<Member>, path: string, secrets: set<string>)
    ensures FieldsPart(ProjectEntry(e, fields, path, secrets), fields)
    decreases EntrySize(e), 2
  {
    var found := Lookup(fields, e.key);
    if found.Some? && ProjectEntry(e, fields, path, secrets) != [] {
      var f := ProjectEntry(e, fields, path, secrets)[0];
      match e {
        case Leaf(_, _) =>
        case Sub(key, entries) => ProjectIsPart(entries, found.value.fields, Child(path, key), secrets);
        case Each(key, entries) => ItemsArePart(entries, found.value.items, 0, Child(path, key), secrets);
      }
      OnePart(f, fields);
    }
  }

  lemma {:induction false} ItemsArePart(entries: seq<Entry>, items: seq<Value>, first: nat, path: string,
                                        secrets: set<string>)
    ensures ItemsPart(ProjectItems(entries, items, first, path, secrets), items)
    decreases EntriesSize(entries), 3 + |items|
  {
    if items != [] {
      var rest := ProjectItems(entries, items[1..], first + 1, path, secrets);
      ItemsArePart(entries, items[1..], first + 1, path, secrets);
      if items[0].Obj? {
        var kept := Project(entries, items[0].fields, Element(path, first), secrets);
        ProjectIsPart(entries, items[0].fields, Element(path, first), secrets);
        assert ([Obj(kept)] + rest)[1..] == rest;
      }
      assert [] + rest == rest;
    }
  }
}
