/** The adapter that turns a canonical UCP profile, made of maps, into the standard shape, made of lists. */
module UcpNormalize {
  import opened Wrappers
  import opened JsonValue

  type Value = Json<string>

  type Members = seq<Field<string>>

  /** The text of a value that is not a string, and a text without the blanks around it. */
  datatype Texts = Texts(of: Value -> string, strip: string -> string)

  datatype NormalizeError = VersionRequired | ServicesRequired | ServiceExpected

  // ---------------------------------------------------------------- reading members

  function Get(fields: Members, key: string): Value {
    match Lookup(fields, key)
    case Some(v) => v
    case None => Null
  }

  function TextOf(t: Texts, v: Value): string { if v.Str? then v.s else t.of(v) }

  /** str(v or other) */
  function TextOr(t: Texts, v: Value, other: string): string { if Falsy(v) then other else TextOf(t, v) }

  function OrElse(s: string, other: string): string { if s == "" then other else s }

  predicate Filled(t: Texts, v: Value) { v.Str? && t.strip(v.s) != "" }

  function MembersOf(v: Value): Members { if v.Obj? then v.fields else [] }

  /** A declaration, or the first of a list of them. */
  function First(v: Value): Value {
    match v
    case Arr(items) => if items == [] then Null else items[0]
    case _ => v
  }

  function Keys(fields: Members): seq<string> {
    if fields == [] then [] else Keys(fields[..|fields| - 1]) + [fields[|fields| - 1].key]
  }

  function StartsWith(s: string, prefix: string): bool { |prefix| <= |s| && s[..|prefix|] == prefix }

  // ---------------------------------------------------------------- capabilities of a service

  /** The declarations of an inline map that are objects. */
  function Inline(fields: Members): Members {
    if fields == [] then []
    else
      var last := fields[|fields| - 1];
      Inline(fields[..|fields| - 1]) + if First(last.val).Obj? then [Field(last.key, First(last.val))] else []
  }

  function ItemTexts(t: Texts, items: seq<Value>): seq<string> {
    if items == [] then [] else ItemTexts(t, items[..|items| - 1]) + [TextOf(t, items[|items| - 1])]
  }

  function Declared(t: Texts, caps: Value): seq<string> {
    match caps
    case Obj(fields) => Keys(Inline(fields))
    case Arr(items) => ItemTexts(t, items)
    case _ => []
  }

  /** The declared ids, and behind them the root ids below the service that are not yet among them. */
  function Extended(ids: seq<string>, root: seq<string>, prefix: string): seq<string> {
    if root == [] then ids
    else
      var before := Extended(ids, root[..|root| - 1], prefix);
      var last := root[|root| - 1];
      if StartsWith(last, prefix) && last !in before then before + [last] else before
  }

  /** Nothing is lost and nothing comes in from elsewhere; distinct ids stay distinct. */
  lemma {:induction false} ExtendedIs(ids: seq<string>, root: seq<string>, prefix: string)
    ensures ids <= Extended(ids, root, prefix)
    ensures forall id :: id in Extended(ids, root, prefix) <==> id in ids || (id in root && StartsWith(id, prefix))
    ensures Distinct(ids) ==> Distinct(Extended(ids, root, prefix))
  {
    if root != [] {
      ExtendedIs(ids, root[..|root| - 1], prefix);
    }
  }

  predicate Distinct(ids: seq<string>) { forall i, j :: 0 <= i < j < |ids| ==> ids[i] != ids[j] }

  function CapabilityIds(t: Texts, id: string, service: Members, root: Members): seq<string> {
    Extended(Declared(t, Get(service, "capabilities")), Keys(root), id + ".")
  }

  function Optional(t: Texts, v: Value, key: string): Members {
    if Filled(t, v) then [Field(key, Str(t.strip(v.s)))] else []
  }

  /** What is said about a capability: by the service itself, else at the root. */
  function Meta(id: string, inline: Members, root: Members): Members {
    match Lookup(inline, id)
    case Some(v) => MembersOf(v)
    case None => MembersOf(First(Get(root, id)))
  }

  function Entry(t: Texts, id: string, meta: Members): Value {
    Obj([Field("id", Str(id)), Field("label", Str(id))] + Optional(t, Get(meta, "version"), "version")
        + Optional(t, Get(meta, "spec"), "specUrl") + Optional(t, Get(meta, "schema"), "schemaUrl"))
  }

  function Entries(t: Texts, ids: seq<string>, inline: Members, root: Members): (r: seq<Value>)
    ensures |r| == |ids|
  {
    if ids == [] then []
    else
      var last := ids[|ids| - 1];
      Entries(t, ids[..|ids| - 1], inline, root) + [Entry(t, last, Meta(last, inline, root))]
  }

  lemma {:induction false} EntriesAt(t: Texts, ids: seq<string>, inline: Members, root: Members, j: nat)
    requires j < |ids|
    ensures Entries(t, ids, inline, root)[j] == Entry(t, ids[j], Meta(ids[j], inline, root))
  {
    if j < |ids| - 1 {
      EntriesAt(t, ids[..|ids| - 1], inline, root, j);
    }
  }

  // ---------------------------------------------------------------- one service

  function Endpoints(t: Texts, service: Members): seq<Value> {
    if Get(service, "endpoints").Arr? then Get(service, "endpoints").items
    else if !Filled(t, Get(service, "endpoint")) then []
    else
      var protocol := OrElse(t.strip(TextOr(t, Get(service, "transport"), "a2a")), "a2a");
      [Obj([Field("uri", Str(t.strip(Get(service, "endpoint").s))), Field("protocol", Str(protocol))]
           + Optional(t, Get(service, "version"), "version"))]
  }

  function Copied(service: Members, key: string): Members {
    if Get(service, key).Str? then [Field(key, Get(service, key))] else []
  }

  function Strings(ids: seq<string>): (r: seq<Value>)
    ensures |r| == |ids|
  {
    if ids == [] then [] else Strings(ids[..|ids| - 1]) + [Str(ids[|ids| - 1])]
  }

  lemma {:induction false} StringsAt(ids: seq<string>, j: nat)
    requires j < |ids|
    ensures Strings(ids)[j] == Str(ids[j])
  {
    if j < |ids| - 1 {
      StringsAt(ids[..|ids| - 1], j);
    }
  }

  function InlineOf(service: Members): Members { Inline(MembersOf(Get(service, "capabilities"))) }

  /** The members that every converted service has. */
  function Head(id: string, kind: string, ids: seq<Value>, endpoints: seq<Value>): Members {
    [Field("id", Str(id)), Field("type", Str(kind)), Field("capabilities", Arr(ids)),
     Field("endpoints", Arr(endpoints))]
  }

  function Specifications(entries: seq<Value>): Members {
    if entries == [] then [] else [Field("specifications", Arr(entries))]
  }

  function Service(t: Texts, id: string, service: Members, root: Members): Members {
    var ids := CapabilityIds(t, id, service, root);
    Head(id, TextOr(t, Get(service, "type"), "commerce"), Strings(ids), Endpoints(t, service))
    + Copied(service, "description") + Copied(service, "documentationUri")
    + Specifications(Entries(t, ids, InlineOf(service), root))
  }

  predicate IsService(declared: Field<string>) { First(declared.val).Obj? }

  predicate AllServices(services: Members) {
    forall i :: 0 <= i < |services| ==> IsService(services[i])
  }

  function Converted(t: Texts, declared: Field<string>, root: Members): Value {
    Obj(Service(t, declared.key, MembersOf(First(declared.val)), root))
  }

  function Services(t: Texts, services: Members, root: Members): (r: seq<Value>)
    ensures |r| == |services|
    ensures forall i :: 0 <= i < |r| ==> r[i] == Converted(t, services[i], root)
  {
    seq(|services|, i requires 0 <= i < |services| => Converted(t, services[i], root))
  }

  // ---------------------------------------------------------------- the profile

  predicate Canonical(parsed: Value) { parsed.Obj? && Get(parsed.fields, "ucp").Obj? }

  function Identity(t: Texts, ucp: Members, domain: string): Members {
    var identity := MembersOf(Get(ucp, "serviceIdentity"));
    if t.strip(TextOr(t, Get(identity, "id"), "")) != "" then identity
    else [Field("id", Str(OrElse(domain, "kiwi-agent"))), Field("name", Str(OrElse(domain, "kiwi-agent")))]
  }

  function Refusal(t: Texts, ucp: Members): Option<NormalizeError> {
    if !Filled(t, Get(ucp, "version")) then Some(VersionRequired)
    else if MembersOf(Get(ucp, "services")) == [] then Some(ServicesRequired)
    else if !AllServices(MembersOf(Get(ucp, "services"))) then Some(ServiceExpected)
    else None
  }

  function Shape(version: string, identity: Members, services: seq<Value>, specifications: Value): Members {
    [Field("specificationVersion", Str(version)), Field("serviceIdentity", Obj(identity)),
     Field("services", Arr(services))]
    + if specifications.Arr? then [Field("specifications", specifications)] else []
  }

  function Standard(t: Texts, ucp: Members, domain: string): Members
    requires Refusal(t, ucp).None?
  {
    Shape(t.strip(Get(ucp, "version").s), Identity(t, ucp, domain),
          Services(t, MembersOf(Get(ucp, "services")), MembersOf(Get(ucp, "capabilities"))),
          Get(ucp, "specifications"))
  }

  function Normalized(t: Texts, parsed: Value, domain: string): Result<Value, NormalizeError> {
    if !Canonical(parsed) then Ok(parsed)
    else
      var ucp := Get(parsed.fields, "ucp").fields;
      match Refusal(t, ucp)
      case Some(error) => Err(error)
      case None => Ok(Obj(Standard(t, ucp, domain)))
  }

  // ---------------------------------------------------------------- the adapter, loop by loop

  method CollectInline(fields: Members) returns (inline: Members)
    ensures inline == Inline(fields)
  {
    inline := [];
    for i := 0 to |fields|
      invariant inline == Inline(fields[..i])
    {
      assert fields[..i + 1][..i] == fields[..i];
      var declaration := First(fields[i].val);
      if declaration.Obj? {
        inline := inline + [Field(fields[i].key, declaration)];
      }
    }
    assert fields[..|fields|] == fields;
  }

  method CollectIds(t: Texts, id: string, service: Members, root: Members) returns (ids: seq<string>, inline: Members)
    ensures ids == CapabilityIds(t, id, service, root) && inline == InlineOf(service)
  {
    inline := [];
    var caps := Get(service, "capabilities");
    match caps {
      case Obj(fields) =>
        inline := CollectInline(fields);
        ids := Keys(inline);
      case Arr(items) => ids := ItemTexts(t, items);
      case _ => ids := [];
    }
    ghost var declared := ids;
    var keys := Keys(root);
    for i := 0 to |keys|
      invariant ids == Extended(declared, keys[..i], id + ".")
    {
      assert keys[..i + 1][..i] == keys[..i];
      if StartsWith(keys[i], id + ".") && keys[i] !in ids {
        ids := ids + [keys[i]];
      }
    }
    assert keys[..|keys|] == keys;
  }

  method CollectEntries(t: Texts, ids: seq<string>, inline: Members, root: Members) returns (specs: seq<Value>)
    ensures specs == Entries(t, ids, inline, root)
  {
    specs := [];
    for i := 0 to |ids|
      invariant specs == Entries(t, ids[..i], inline, root)
    {
      assert ids[..i + 1][..i] == ids[..i];
      specs := specs + [Entry(t, ids[i], Meta(ids[i], inline, root))];
    }
    assert ids[..|ids|] == ids;
  }

  method ConvertService(t: Texts, id: string, service: Members, root: Members) returns (converted: Members)
    ensures converted == Service(t, id, service, root)
  {
    var ids, inline := CollectIds(t, id, service, root);
    converted := Head(id, TextOr(t, Get(service, "type"), "commerce"), Strings(ids), Endpoints(t, service));
    converted := converted + Copied(service, "description") + Copied(service, "documentationUri");
    var specs := CollectEntries(t, ids, inline, root);
    if specs != [] {
      converted := converted + [Field("specifications", Arr(specs))];
    }
  }

  /** The value is the conversion of whatever service is declared. */
  ghost predicate IsConversion(t: Texts, declared: Field<string>, root: Members, v: Value) {
    forall service: Members {:trigger Service(t, declared.key, service, root)} ::
      First(declared.val) == Obj(service) ==> v == Obj(Service(t, declared.key, service, root))
  }

  lemma ConversionsAreServices(t: Texts, services: Members, root: Members, standard: seq<Value>)
    requires AllServices(services) && |standard| == |services|
    requires forall k :: 0 <= k < |services| ==> IsConversion(t, services[k], root, standard[k])
    ensures standard == Services(t, services, root)
  {
    forall k | 0 <= k < |services| ensures standard[k] == Services(t, services, root)[k] {
      assert IsService(services[k]) && IsConversion(t, services[k], root, standard[k]);
      assert Converted(t, services[k], root)
          == Obj(Service(t, services[k].key, First(services[k].val).fields, root));
    }
  }

  /** One member of the service map. */
  method Convert(t: Texts, declared: Field<string>, root: Members) returns (result: Result<Value, NormalizeError>)
    ensures result.Ok? <==> IsService(declared)
    ensures result.Ok? ==> IsConversion(t, declared, root, result.value)
    ensures result.Err? ==> result.error == ServiceExpected
  {
    var declaration := First(declared.val);
    if !declaration.Obj? {
      return Err(ServiceExpected);
    }
    var converted := ConvertService(t, declared.key, declaration.fields, root);
    return Ok(Obj(converted));
  }

  method ConvertServices(t: Texts, services: Members, root: Members)
    returns (result: Result<seq<Value>, NormalizeError>)
    ensures result == if AllServices(services) then Ok(Services(t, services, root)) else Err(ServiceExpected)
  {
    var standard: seq<Value> := [];
    for i := 0 to |services|
      invariant |standard| == i && forall k :: 0 <= k < i ==> IsService(services[k])
      invariant forall k :: 0 <= k < i ==> IsConversion(t, services[k], root, standard[k])
    {
      var converted := Convert(t, services[i], root);
      if converted.Err? {
        return Err(ServiceExpected);
      }
      standard := standard + [converted.value];
    }
    ConversionsAreServices(t, services, root, standard);
    return Ok(standard);
  }

  method Normalize(t: Texts, parsed: Value, domain: string) returns (result: Result<Value, NormalizeError>)
    ensures result == Normalized(t, parsed, domain)
  {
    if !parsed.Obj? || !Get(parsed.fields, "ucp").Obj? {
      return Ok(parsed);
    }
    var ucp := Get(parsed.fields, "ucp").fields;
    if !Filled(t, Get(ucp, "version")) {
      return Err(VersionRequired);
    }
    var services := MembersOf(Get(ucp, "services"));
    if services == [] {
      return Err(ServicesRequired);
    }
    var converted := ConvertServices(t, services, MembersOf(Get(ucp, "capabilities")));
    if converted.Err? {
      return Err(converted.error);
    }
    var fields := [Field("specificationVersion", Str(t.strip(Get(ucp, "version").s))),
                   Field("serviceIdentity", Obj(Identity(t, ucp, domain))), Field("services", Arr(converted.value))];
    if Get(ucp, "specifications").Arr? {
      fields := fields + [Field("specifications", Get(ucp, "specifications"))];
    }
    assert fields == Standard(t, ucp, domain);
    return Ok(Obj(fields));
  }

  // ---------------------------------------------------------------- no capability disappears

  lemma {:induction false} LookupConcat(a: Members, b: Members, key: string)
    ensures Lookup(a + b, key) == if Lookup(a, key).Some? then Lookup(a, key) else Lookup(b, key)
  {
    if a == [] {
      assert a + b == b;
    } else {
      assert (a + b)[1..] == a[1..] + b;
      LookupConcat(a[1..], b, key);
    }
  }

  /** The first member of a key is found; a key that no member has is not. */
  lemma {:induction false} LookupFirst(fields: Members, i: nat)
    requires i < |fields| && forall j :: 0 <= j < i ==> fields[j].key != fields[i].key
    ensures Lookup(fields, fields[i].key) == Some(fields[i].val)
  {
    if i > 0 {
      LookupFirst(fields[1..], i - 1);
    }
  }

  lemma {:induction false} LookupNone(fields: Members, key: string)
    requires forall i :: 0 <= i < |fields| ==> fields[i].key != key
    ensures Lookup(fields, key) == None
  {
    if fields != [] {
      LookupNone(fields[1..], key);
    }
  }

  /** The named member of a specification entry is there exactly if the declaration fills it. */
  lemma EntryMembers(t: Texts, id: string, meta: Members)
    ensures Entry(t, id, meta).Obj?
    ensures var fields := Entry(t, id, meta).fields;
            && Lookup(fields, "id") == Some(Str(id)) && Lookup(fields, "label") == Some(Str(id))
            && Lookup(fields, "version") == FilledText(t, Get(meta, "version"))
            && Lookup(fields, "specUrl") == FilledText(t, Get(meta, "spec"))
            && Lookup(fields, "schemaUrl") == FilledText(t, Get(meta, "schema"))
  {
    var head := [Field("id", Str(id)), Field("label", Str(id))];
    var version, spec := Optional(t, Get(meta, "version"), "version"), Optional(t, Get(meta, "spec"), "specUrl");
    var schema := Optional(t, Get(meta, "schema"), "schemaUrl");
    LookupFirst(head, 0);
    LookupFirst(head, 1);
    LookupNone(head, "version");
    LookupNone(head, "specUrl");
    LookupNone(head, "schemaUrl");
    OptionalLookup(t, Get(meta, "version"), "version");
    OptionalLookup(t, Get(meta, "spec"), "specUrl");
    OptionalLookup(t, Get(meta, "schema"), "schemaUrl");
    LookupFour(head, version, spec, schema, "id");
    LookupFour(head, version, spec, schema, "label");
    LookupFour(head, version, spec, schema, "version");
    LookupFour(head, version, spec, schema, "specUrl");
    LookupFour(head, version, spec, schema, "schemaUrl");
  }

  lemma OptionalLookup(t: Texts, v: Value, key: string)
    ensures Lookup(Optional(t, v, key), key) == FilledText(t, v)
    ensures forall other :: other != key ==> Lookup(Optional(t, v, key), other) == None
  {
    forall other | other != key ensures Lookup(Optional(t, v, key), other) == None {
      LookupNone(Optional(t, v, key), other);
    }
  }

  /** The member of that key in the first of four groups that has one. */
  function FirstOf(a: Members, b: Members, c: Members, d: Members, key: string): Option<Value> {
    if Lookup(a, key).Some? then Lookup(a, key)
    else if Lookup(b, key).Some? then Lookup(b, key)
    else if Lookup(c, key).Some? then Lookup(c, key)
    else Lookup(d, key)
  }

  lemma LookupFour(a: Members, b: Members, c: Members, d: Members, key: string)
    ensures Lookup(a + b + c + d, key) == FirstOf(a, b, c, d, key)
  {
    LookupConcat(a + b + c, d, key);
    LookupConcat(a + b, c, key);
    LookupConcat(a, b, key);
  }

  function FilledText(t: Texts, v: Value): Option<Value> {
    if Filled(t, v) then Some(Str(t.strip(v.s))) else None
  }

  lemma HeadMembers(id: string, kind: string, ids: seq<Value>, endpoints: seq<Value>)
    ensures Lookup(Head(id, kind, ids, endpoints), "id") == Some(Str(id))
    ensures Lookup(Head(id, kind, ids, endpoints), "capabilities") == Some(Arr(ids))
    ensures Lookup(Head(id, kind, ids, endpoints), "specifications") == None
  {
    LookupFirst(Head(id, kind, ids, endpoints), 0);
    LookupFirst(Head(id, kind, ids, endpoints), 2);
    LookupNone(Head(id, kind, ids, endpoints), "specifications");
  }

  lemma CopiedMembers(service: Members, key: string, other: string)
    requires key != other
    ensures Lookup(Copied(service, key), other) == None
  {
    LookupNone(Copied(service, key), other);
  }

  lemma SpecificationMembers(entries: seq<Value>)
    ensures Lookup(Specifications(entries), "specifications") == if entries == [] then None else Some(Arr(entries))
  {
    if entries != [] {
      LookupFirst(Specifications(entries), 0);
    }
  }

  lemma ServiceMembers(t: Texts, id: string, service: Members, root: Members)
    ensures var ids, fields := CapabilityIds(t, id, service, root), Service(t, id, service, root);
            && Lookup(fields, "id") == Some(Str(id))
            && Lookup(fields, "capabilities") == Some(Arr(Strings(ids)))
            && Lookup(fields, "specifications") ==
               if ids == [] then None else Some(Arr(Entries(t, ids, InlineOf(service), root)))
  {
    var ids, kind := CapabilityIds(t, id, service, root), TextOr(t, Get(service, "type"), "commerce");
    var head, entries := Head(id, kind, Strings(ids), Endpoints(t, service)), Entries(t, ids, InlineOf(service), root);
    var description, documents := Copied(service, "description"), Copied(service, "documentationUri");
    HeadMembers(id, kind, Strings(ids), Endpoints(t, service));
    CopiedMembers(service, "description", "specifications");
    CopiedMembers(service, "documentationUri", "specifications");
    SpecificationMembers(entries);
    LookupFour(head, description, documents, Specifications(entries), "id");
    LookupFour(head, description, documents, Specifications(entries), "capabilities");
    LookupFour(head, description, documents, Specifications(entries), "specifications");
  }

  /** The capability is listed by a service in standard shape, and at the same place of its specifications stands
      an entry of that id and label, with a version exactly if one is declared. */
  ghost predicate Claimed(service: Value, id: string, version: Option<Value>) {
    && service.Obj?
    && var ids, specs := Get(service.fields, "capabilities"), Get(service.fields, "specifications");
       && ids.Arr? && specs.Arr? && |ids.items| == |specs.items|
       && exists j :: 0 <= j < |ids.items| && ids.items[j] == Str(id) && IsEntry(specs.items[j], id, version)
  }

  predicate IsEntry(v: Value, id: string, version: Option<Value>) {
    && v.Obj? && Lookup(v.fields, "id") == Some(Str(id)) && Lookup(v.fields, "label") == Some(Str(id))
    && Lookup(v.fields, "version") == version
  }

  /** The version that a service, or else the root, declares for a capability. */
  function DeclaredVersion(t: Texts, service: Members, root: Members, capability: string): Option<Value> {
    FilledText(t, Get(Meta(capability, InlineOf(service), root), "version"))
  }

  lemma BelowIsListed(t: Texts, id: string, service: Members, root: Members, capability: string)
    requires capability in Keys(root) && StartsWith(capability, id + ".")
    ensures capability in CapabilityIds(t, id, service, root)
  {
    ExtendedIs(Declared(t, Get(service, "capabilities")), Keys(root), id + ".");
  }

  lemma CapabilityIsClaimed(t: Texts, id: string, service: Members, root: Members, capability: string)
    requires capability in CapabilityIds(t, id, service, root)
    ensures Claimed(Obj(Service(t, id, service, root)), capability, DeclaredVersion(t, service, root, capability))
  {
    var ids, inline := CapabilityIds(t, id, service, root), InlineOf(service);
    ServiceMembers(t, id, service, root);
    var j :| 0 <= j < |ids| && ids[j] == capability;
    EntryMembers(t, capability, Meta(capability, inline, root));
    StringsAt(ids, j);
    EntriesAt(t, ids, inline, root, j);
  }

  /** Normalising keeps every service in order, and no capability of the root map that lies below a service
      disappears: the service claims it, without a version if none is declared, so that it cannot be trusted
      unseen. */
  lemma NoCapabilityDisappears(t: Texts, parsed: Value, domain: string, i: nat, capability: string)
    requires Canonical(parsed) && Normalized(t, parsed, domain).Ok?
    requires i < |MembersOf(Get(Get(parsed.fields, "ucp").fields, "services"))|
    ensures var ucp := Get(parsed.fields, "ucp").fields;
            var declared, root := MembersOf(Get(ucp, "services")), MembersOf(Get(ucp, "capabilities"));
            var services := Get(MembersOf(Normalized(t, parsed, domain).value), "services");
            && services.Arr? && |services.items| == |declared| && services.items[i].Obj?
            && Get(services.items[i].fields, "id") == Str(declared[i].key)
            && (capability in Keys(root) && StartsWith(capability, declared[i].key + ".") ==>
                  Claimed(services.items[i], capability,
                          DeclaredVersion(t, MembersOf(First(declared[i].val)), root, capability)))
  {
    var ucp := Get(parsed.fields, "ucp").fields;
    var declared, root := MembersOf(Get(ucp, "services")), MembersOf(Get(ucp, "capabilities"));
    var id, service := declared[i].key, MembersOf(First(declared[i].val));
    StandardServices(t, ucp, domain);
    ServiceMembers(t, id, service, root);
    if capability in Keys(root) && StartsWith(capability, id + ".") {
      BelowIsListed(t, id, service, root, capability);
      CapabilityIsClaimed(t, id, service, root, capability);
    }
  }

  lemma StandardServices(t: Texts, ucp: Members, domain: string)
    requires Refusal(t, ucp).None?
    ensures Get(Standard(t, ucp, domain), "services")
         == Arr(Services(t, MembersOf(Get(ucp, "services")), MembersOf(Get(ucp, "capabilities"))))
  {
    ShapeServices(t.strip(Get(ucp, "version").s), Identity(t, ucp, domain),
                  Services(t, MembersOf(Get(ucp, "services")), MembersOf(Get(ucp, "capabilities"))),
                  Get(ucp, "specifications"));
  }

  lemma ShapeServices(version: string, identity: Members, services: seq<Value>, specifications: Value)
    ensures Get(Shape(version, identity, services, specifications), "services") == Arr(services)
  {
    LookupFirst(Shape(version, identity, services, specifications), 2);
  }
}
