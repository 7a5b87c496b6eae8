/** What a normalised UCP profile says, member by member, in terms of the canonical one it was made from. */
module UcpNormalizeMeaning {
  import opened Wrappers
  import opened JsonValue
  import opened UcpNormalize
  import Order

  // ---------------------------------------------------------------- when there is one

  /** A profile without a ucp object is left as it is; any other is refused exactly if it has no version text, no
      services, or a service that is neither an object nor a list that starts with one, and for the first of these. */
  lemma NormalizedExactly(t: Texts, parsed: Value, domain: string)
    ensures !(parsed.Obj? && Lookup(parsed.fields, "ucp").Some? && Lookup(parsed.fields, "ucp").value.Obj?) ==>
              Normalized(t, parsed, domain) == Ok(parsed)
    ensures parsed.Obj? && Lookup(parsed.fields, "ucp").Some? && Lookup(parsed.fields, "ucp").value.Obj? ==>
              var ucp := Lookup(parsed.fields, "ucp").value.fields;
              var version, services := Lookup(ucp, "version"), Lookup(ucp, "services");
              if !(version.Some? && version.value.Str? && t.strip(version.value.s) != "") then
                Normalized(t, parsed, domain) == Err(VersionRequired)
              else if !(services.Some? && services.value.Obj? && services.value.fields != []) then
                Normalized(t, parsed, domain) == Err(ServicesRequired)
              else if exists i :: 0 <= i < |services.value.fields| && !Declares(services.value.fields[i].val) then
                Normalized(t, parsed, domain) == Err(ServiceExpected)
              else Normalized(t, parsed, domain).Ok?
  {
  }

  /** An object, or a list that starts with one. */
  predicate Declares(v: Value) { v.Obj? || (v.Arr? && v.items != [] && v.items[0].Obj?) }

  function DeclarationOf(v: Value): Members
    requires Declares(v)
  {
    if v.Obj? then v.fields else v.items[0].fields
  }

  // ---------------------------------------------------------------- the profile

  lemma ShapeSays(version: string, identity: Members, services: seq<Value>, specifications: Value)
    ensures var out := Shape(version, identity, services, specifications);
            && Lookup(out, "specificationVersion") == Some(Str(version))
            && Lookup(out, "serviceIdentity") == Some(Obj(identity))
            && Lookup(out, "specifications") == if specifications.Arr? then Some(specifications) else None
  {
    var out := Shape(version, identity, services, specifications);
    LookupFirst(out, 0);
    LookupFirst(out, 1);
    if specifications.Arr? {
      LookupFirst(out, 3);
    } else {
      LookupNone(out, "specifications");
    }
  }

  /** The version is the stripped text; the identity is the declared one if its id is filled, else both its id and
      its name are the domain, or kiwi-agent; and a list of specifications is kept. */
  lemma ProfileSays(t: Texts, parsed: Value, domain: string, ucp: Members, out: Members)
    requires parsed.Obj? && Lookup(parsed.fields, "ucp") == Some(Obj(ucp))
    requires Normalized(t, parsed, domain) == Ok(Obj(out))
    ensures Lookup(ucp, "version").Some? && Lookup(ucp, "version").value.Str?
    ensures Lookup(out, "specificationVersion") == Some(Str(t.strip(Lookup(ucp, "version").value.s)))
    ensures var declared := Lookup(ucp, "serviceIdentity");
            var id := if declared.Some? && declared.value.Obj? then Lookup(declared.value.fields, "id") else None;
            var text := if id.None? || Falsy(id.value) then ""
                        else if id.value.Str? then id.value.s else t.of(id.value);
            var name := if domain != "" then domain else "kiwi-agent";
            Lookup(out, "serviceIdentity") ==
            if t.strip(text) != "" then (if declared.Some? && declared.value.Obj? then declared else Some(Obj([])))
            else Some(Obj([Field("id", Str(name)), Field("name", Str(name))]))
    ensures Lookup(out, "specifications") ==
            if Lookup(ucp, "specifications").Some? && Lookup(ucp, "specifications").value.Arr?
            then Lookup(ucp, "specifications") else None
  {
    ShapeSays(t.strip(Get(ucp, "version").s), Identity(t, ucp, domain),
              Services(t, MembersOf(Get(ucp, "services")), MembersOf(Get(ucp, "capabilities"))),
              Get(ucp, "specifications"));
  }

  // ---------------------------------------------------------------- a service

  lemma HeadSays(id: string, kind: string, ids: seq<Value>, endpoints: seq<Value>)
    ensures Lookup(Head(id, kind, ids, endpoints), "type") == Some(Str(kind))
    ensures Lookup(Head(id, kind, ids, endpoints), "endpoints") == Some(Arr(endpoints))
    ensures Lookup(Head(id, kind, ids, endpoints), "description") == None
    ensures Lookup(Head(id, kind, ids, endpoints), "documentationUri") == None
  {
    LookupFirst(Head(id, kind, ids, endpoints), 1);
    LookupFirst(Head(id, kind, ids, endpoints), 3);
    LookupNone(Head(id, kind, ids, endpoints), "description");
    LookupNone(Head(id, kind, ids, endpoints), "documentationUri");
  }

  lemma CopiedSays(service: Members, key: string, other: string)
    ensures Lookup(Copied(service, key), other) ==
            if other == key && Lookup(service, key).Some? && Lookup(service, key).value.Str?
            then Lookup(service, key) else None
  {
    if Get(service, key).Str? && other == key {
      LookupFirst(Copied(service, key), 0);
    } else {
      LookupNone(Copied(service, key), other);
    }
  }

  lemma ServiceLookup(t: Texts, id: string, service: Members, root: Members, key: string)
    requires key != "specifications"
    ensures var ids, kind := CapabilityIds(t, id, service, root), TextOr(t, Get(service, "type"), "commerce");
            Lookup(Service(t, id, service, root), key) ==
            FirstOf(Head(id, kind, Strings(ids), Endpoints(t, service)), Copied(service, "description"),
                    Copied(service, "documentationUri"), [], key)
  {
    var ids, kind := CapabilityIds(t, id, service, root), TextOr(t, Get(service, "type"), "commerce");
    var specs := Specifications(Entries(t, ids, InlineOf(service), root));
    LookupNone(specs, key);
    LookupFour(Head(id, kind, Strings(ids), Endpoints(t, service)), Copied(service, "description"),
               Copied(service, "documentationUri"), specs, key);
  }

  lemma ServiceHeadSays(t: Texts, id: string, service: Members, root: Members)
    ensures Lookup(Service(t, id, service, root), "type") == Some(Str(TextOr(t, Get(service, "type"), "commerce")))
    ensures Lookup(Service(t, id, service, root), "endpoints") == Some(Arr(Endpoints(t, service)))
  {
    HeadSays(id, TextOr(t, Get(service, "type"), "commerce"), Strings(CapabilityIds(t, id, service, root)),
             Endpoints(t, service));
    ServiceLookup(t, id, service, root, "type");
    ServiceLookup(t, id, service, root, "endpoints");
  }

  lemma ServiceTextsSay(t: Texts, id: string, service: Members, root: Members, key: string)
    requires key in ["description", "documentationUri"]
    ensures Lookup(Service(t, id, service, root), key) ==
            if Lookup(service, key).Some? && Lookup(service, key).value.Str? then Lookup(service, key) else None
  {
    HeadSays(id, TextOr(t, Get(service, "type"), "commerce"), Strings(CapabilityIds(t, id, service, root)),
             Endpoints(t, service));
    CopiedSays(service, "description", key);
    CopiedSays(service, "documentationUri", key);
    ServiceLookup(t, id, service, root, key);
  }

  lemma OptionalSays(t: Texts, v: Value, key: string)
    ensures Lookup(Optional(t, v, key), key) == if v.Str? && t.strip(v.s) != "" then Some(Str(t.strip(v.s))) else None
  {
    OptionalLookup(t, v, key);
  }

  /** The one endpoint that a declared address gives. */
  lemma EndpointSays(t: Texts, service: Members, address: string)
    requires !Get(service, "endpoints").Arr?
    requires Lookup(service, "endpoint") == Some(Str(address)) && t.strip(address) != ""
    ensures |Endpoints(t, service)| == 1 && Endpoints(t, service)[0].Obj?
    ensures var endpoint := Endpoints(t, service)[0].fields;
            var transport, version := Lookup(service, "transport"), Lookup(service, "version");
            var text := if transport.None? || Falsy(transport.value) then "a2a"
                        else if transport.value.Str? then transport.value.s else t.of(transport.value);
            && Lookup(endpoint, "uri") == Some(Str(t.strip(address)))
            && Lookup(endpoint, "protocol") == Some(Str(if t.strip(text) != "" then t.strip(text) else "a2a"))
            && Lookup(endpoint, "version") ==
               if version.Some? && version.value.Str? && t.strip(version.value.s) != ""
               then Some(Str(t.strip(version.value.s))) else None
  {
    var endpoint := Endpoints(t, service)[0].fields;
    var version := Optional(t, Get(service, "version"), "version");
    LookupFirst(endpoint, 0);
    LookupFirst(endpoint, 1);
    var head := endpoint[..2];
    assert endpoint == head + version;
    LookupNone(head, "version");
    LookupConcat(head, version, "version");
    OptionalSays(t, Get(service, "version"), "version");
  }

  /** A list of one endpoint with the address as uri, the transport or a2a as protocol, and a version if filled. */
  ghost predicate IsOneEndpoint(t: Texts, source: Members, address: string, endpoints: Option<Value>) {
    && endpoints.Some? && endpoints.value.Arr? && |endpoints.value.items| == 1 && endpoints.value.items[0].Obj?
    && var endpoint := endpoints.value.items[0].fields;
       var transport, version := Lookup(source, "transport"), Lookup(source, "version");
       var text := if transport.None? || Falsy(transport.value) then "a2a"
                   else if transport.value.Str? then transport.value.s else t.of(transport.value);
       && Lookup(endpoint, "uri") == Some(Str(t.strip(address)))
       && Lookup(endpoint, "protocol") == Some(Str(if t.strip(text) != "" then t.strip(text) else "a2a"))
       && Lookup(endpoint, "version") ==
          if version.Some? && version.value.Str? && t.strip(version.value.s) != ""
          then Some(Str(t.strip(version.value.s))) else None
  }

  /** What a converted service says about a declaration: a list of endpoints is kept as it is; a filled address
      gives exactly one endpoint with that address as uri, the transport or a2a as protocol, and the version if one
      is filled; without either there is none. The type is the declared one or commerce, and the description and
      the documentation are kept if they are texts. */
  ghost predicate SaysWhatIsDeclared(t: Texts, source: Members, service: Members) {
    var endpoints, address, kind := Lookup(source, "endpoints"), Lookup(source, "endpoint"), Lookup(source, "type");
    && (endpoints.Some? && endpoints.value.Arr? ==> Lookup(service, "endpoints") == endpoints)
    && (!(endpoints.Some? && endpoints.value.Arr?) ==>
          if address.Some? && address.value.Str? && t.strip(address.value.s) != ""
          then IsOneEndpoint(t, source, address.value.s, Lookup(service, "endpoints"))
          else Lookup(service, "endpoints") == Some(Arr([])))
    && Lookup(service, "type") ==
       Some(Str(if kind.None? || Falsy(kind.value) then "commerce"
                else if kind.value.Str? then kind.value.s else t.of(kind.value)))
    && (forall key :: key in ["description", "documentationUri"] ==>
          Lookup(service, key) ==
          if Lookup(source, key).Some? && Lookup(source, key).value.Str? then Lookup(source, key) else None)
  }

  lemma ConversionSays(t: Texts, id: string, source: Members, root: Members)
    ensures SaysWhatIsDeclared(t, source, Service(t, id, source, root))
  {
    var service := Service(t, id, source, root);
    ServiceHeadSays(t, id, source, root);
    forall key | key in ["description", "documentationUri"]
      ensures Lookup(service, key) ==
              if Lookup(source, key).Some? && Lookup(source, key).value.Str? then Lookup(source, key) else None
    {
      ServiceTextsSay(t, id, source, root, key);
    }
    var address := Lookup(source, "endpoint");
    if !Get(source, "endpoints").Arr? && address.Some? && address.value.Str? && t.strip(address.value.s) != "" {
      EndpointSays(t, source, address.value.s);
    }
  }

  /** Every service of a normalised profile, in the order of the map, says what is declared there. */
  lemma ServiceSays(t: Texts, parsed: Value, domain: string, ucp: Members, out: Members, declared: Members, i: nat)
    requires parsed.Obj? && Lookup(parsed.fields, "ucp") == Some(Obj(ucp))
    requires Normalized(t, parsed, domain) == Ok(Obj(out))
    requires Lookup(ucp, "services") == Some(Obj(declared)) && i < |declared|
    ensures Declares(declared[i].val)
    ensures Lookup(out, "services").Some? && Lookup(out, "services").value.Arr?
    ensures |Lookup(out, "services").value.items| == |declared| && Lookup(out, "services").value.items[i].Obj?
    ensures SaysWhatIsDeclared(t, DeclarationOf(declared[i].val), Lookup(out, "services").value.items[i].fields)
  {
    assert Refusal(t, ucp).None? && IsService(declared[i]);
    StandardServices(t, ucp, domain);
    ConversionSays(t, declared[i].key, DeclarationOf(declared[i].val), MembersOf(Get(ucp, "capabilities")));
  }

  // ---------------------------------------------------------------- its capabilities

  lemma {:induction false} ItemTextsAt(t: Texts, items: seq<Value>)
    ensures |ItemTexts(t, items)| == |items|
    ensures forall j :: 0 <= j < |items| ==>
              ItemTexts(t, items)[j] == if items[j].Str? then items[j].s else t.of(items[j])
  {
    if items != [] {
      ItemTextsAt(t, items[..|items| - 1]);
    }
  }

  lemma {:induction false} StringsAre(ids: seq<string>)
    ensures forall j :: 0 <= j < |ids| ==> Strings(ids)[j] == Str(ids[j])
  {
    forall j | 0 <= j < |ids| ensures Strings(ids)[j] == Str(ids[j]) {
      StringsAt(ids, j);
    }
  }

  lemma ExtendedFront(declared: seq<string>, root: seq<string>, prefix: string)
    ensures declared <= Extended(declared, root, prefix)
  {
    ExtendedIs(declared, root, prefix);
  }

  lemma FrontStrings(declared: seq<string>, ids: seq<string>)
    requires declared <= ids
    ensures forall j :: 0 <= j < |declared| ==> Strings(ids)[j] == Str(declared[j])
  {
    StringsAre(ids);
  }

  /** The declared ids come first among those of the converted service. */
  lemma DeclaredComeFirst(t: Texts, id: string, service: Members, root: Members, declared: seq<string>)
    requires Declared(t, Get(service, "capabilities")) == declared
    ensures var ids := CapabilityIds(t, id, service, root);
            && Lookup(Service(t, id, service, root), "capabilities") == Some(Arr(Strings(ids)))
            && |declared| <= |ids| && forall j :: 0 <= j < |declared| ==> Strings(ids)[j] == Str(declared[j])
  {
    var ids := CapabilityIds(t, id, service, root);
    ServiceMembers(t, id, service, root);
    ExtendedFront(declared, Keys(root), id + ".");
    FrontStrings(declared, ids);
  }

  /** The ids that a service lists come first, in its order. */
  lemma ListedCapabilities(t: Texts, id: string, service: Members, root: Members, items: seq<Value>)
    requires Lookup(service, "capabilities") == Some(Arr(items))
    ensures Lookup(Service(t, id, service, root), "capabilities").Some?
    ensures Lookup(Service(t, id, service, root), "capabilities").value.Arr?
    ensures var ids := Lookup(Service(t, id, service, root), "capabilities").value.items;
            && |items| <= |ids|
            && forall j :: 0 <= j < |items| ==> ids[j] == Str(if items[j].Str? then items[j].s else t.of(items[j]))
  {
    DeclaredComeFirst(t, id, service, root, ItemTexts(t, items));
    ItemTextsAt(t, items);
  }

  lemma {:induction false} InlineAre(fields: Members)
    ensures Inline(fields) == InlineEach(Order.Select((f: Field<string>) => Declares(f.val), fields))
  {
    var declares := (f: Field<string>) => Declares(f.val);
    if fields != [] {
      var front, last := fields[..|fields| - 1], fields[|fields| - 1];
      InlineAre(front);
      Order.SelectConcat(declares, front, [last]);
      assert front + [last] == fields;
      assert [last][1..] == [];
      if Declares(last.val) {
        var picked := Order.Select(declares, front);
        assert Order.Select(declares, [last]) == [last];
        assert (picked + [last])[..|picked|] == picked;
      } else {
        assert Order.Select(declares, [last]) == [];
        assert Inline(front) + [] == Inline(front);
        assert Order.Select(declares, front) + [] == Order.Select(declares, front);
      }
    }
  }

  function InlineEach(fields: Members): Members {
    if fields == [] then []
    else
      var last := fields[|fields| - 1];
      InlineEach(fields[..|fields| - 1]) + [Field(last.key, First(last.val))]
  }

  lemma {:induction false} InlineEachAt(fields: Members)
    ensures |InlineEach(fields)| == |fields|
    ensures forall j :: 0 <= j < |fields| ==> InlineEach(fields)[j] == Field(fields[j].key, First(fields[j].val))
  {
    if fields != [] {
      InlineEachAt(fields[..|fields| - 1]);
    }
  }

  lemma {:induction false} KeysAt(fields: Members)
    ensures |Keys(fields)| == |fields| && forall j :: 0 <= j < |fields| ==> Keys(fields)[j] == fields[j].key
  {
    if fields != [] {
      KeysAt(fields[..|fields| - 1]);
    }
  }

  lemma MappedKeys(fields: Members, declared: Members)
    requires declared == Order.Select((f: Field<string>) => Declares(f.val), fields)
    ensures |Keys(Inline(fields))| == |declared|
    ensures forall j :: 0 <= j < |declared| ==> Keys(Inline(fields))[j] == declared[j].key
  {
    InlineAre(fields);
    InlineEachAt(declared);
    KeysAt(Inline(fields));
  }

  /** Of a map of capabilities the ids that declare something come first, in its order. */
  lemma MappedCapabilities(t: Texts, id: string, service: Members, root: Members, fields: Members)
    requires Lookup(service, "capabilities") == Some(Obj(fields))
    ensures Lookup(Service(t, id, service, root), "capabilities").Some?
    ensures Lookup(Service(t, id, service, root), "capabilities").value.Arr?
    ensures var ids := Lookup(Service(t, id, service, root), "capabilities").value.items;
            var declared := Order.Select((f: Field<string>) => Declares(f.val), fields);
            |declared| <= |ids| && forall j :: 0 <= j < |declared| ==> ids[j] == Str(declared[j].key)
  {
    var declared := Order.Select((f: Field<string>) => Declares(f.val), fields);
    MappedKeys(fields, declared);
    DeclaredComeFirst(t, id, service, root, Keys(Inline(fields)));
  }

  lemma {:induction false} InlineLookup(fields: Members, key: string, v: Value)
    requires Lookup(fields, key) == Some(v) && Declares(v)
    ensures Lookup(Inline(fields), key) == Some(Obj(DeclarationOf(v)))
  {
    var front, last := fields[..|fields| - 1], fields[|fields| - 1];
    assert front + [last] == fields;
    LookupConcat(front, [last], key);
    LookupConcat(Inline(front), [Field(last.key, First(last.val))], key);
    assert Inline(front) + [] == Inline(front);
    if Lookup(front, key).Some? {
      InlineLookup(front, key, v);
    } else {
      InlineNone(front, key);
      assert [last][1..] == [] && last.key == key && last.val == v;
      assert [Field(last.key, First(last.val))][1..] == [];
    }
  }

  lemma {:induction false} InlineNone(fields: Members, key: string)
    requires Lookup(fields, key) == None
    ensures Lookup(Inline(fields), key) == None
  {
    if fields != [] {
      var front, last := fields[..|fields| - 1], fields[|fields| - 1];
      assert front + [last] == fields;
      LookupConcat(front, [last], key);
      InlineNone(front, key);
      assert [last][1..] == [];
      LookupConcat(Inline(front), [Field(last.key, First(last.val))], key);
      assert [Field(last.key, First(last.val))][1..] == [];
      assert Inline(front) + [] == Inline(front);
    }
  }

  /** What the service itself declares about a capability goes before what the root says about it. */
  lemma ServiceDeclarationFirst(capability: string, caps: Members, root: Members)
    ensures Lookup(caps, capability).Some? && Declares(Lookup(caps, capability).value) ==>
              Meta(capability, Inline(caps), root) == DeclarationOf(Lookup(caps, capability).value)
    ensures Lookup(caps, capability).None? ==>
              Meta(capability, Inline(caps), root) ==
              if Lookup(root, capability).Some? && Declares(Lookup(root, capability).value)
              then DeclarationOf(Lookup(root, capability).value) else []
  {
    if Lookup(caps, capability).None? {
      InlineNone(caps, capability);
    } else if Declares(Lookup(caps, capability).value) {
      InlineLookup(caps, capability, Lookup(caps, capability).value);
    }
  }
}
