/** Which members the projections leave out: with plain keys, exactly those that are flagged or hold something
    flagged, although the parsers decide by comparing path texts. */
module ProjectionExact {
  import opened Wrappers
  import opened JsonValue
  import opened SecretScan
  import opened PublicProjection

  // ---------------------------------------------------------------- path texts are unambiguous

  predicate PlainKey(key: string) { key != "" && '.' !in key }

  /** Every object has distinct, non-empty keys without a dot. */
  predicate Plain(v: Value)
    decreases Size(v), 0
  {
    match v
    case Obj(fields) => PlainFields(fields)
    case Arr(items) => PlainItems(items)
    case _ => true
  }

  predicate PlainFields(fields: seq<Member>)
    decreases SizeFields(fields), 1
  {
    fields == [] || (
      assert SizeField(fields[0]) == 1 + Size(fields[0].val);
      && PlainKey(fields[0].key) && Plain(fields[0].val) && Lookup(fields[1..], fields[0].key).None?
      && PlainFields(fields[1..]))
  }

  predicate PlainItems(items: seq<Value>)
    decreases SizeItems(items), 1
  {
    items == [] || (Plain(items[0]) && PlainItems(items[1..]))
  }

  lemma {:induction false} DecimalIsPlain(n: nat)
    ensures '.' !in Decimal(n) && |Decimal(n)| >= 1 && (n >= 10 ==> |Decimal(n)| >= 2)
  {
    if n >= 10 {
      DecimalIsPlain(n / 10);
    }
  }

  lemma {:induction false} DecimalInjective(m: nat, n: nat)
    requires Decimal(m) == Decimal(n)
    ensures m == n
  {
    DecimalIsPlain(m);
    DecimalIsPlain(n);
    if m >= 10 && n >= 10 {
      var a, b := Decimal(m), Decimal(n);
      assert a[|a| - 1] == "0123456789"[m % 10] && b[|b| - 1] == "0123456789"[n % 10];
      assert a[..|a| - 1] == Decimal(m / 10) && b[..|b| - 1] == Decimal(n / 10);
      DecimalInjective(m / 10, n / 10);
    }
  }

  /** q is the path base + key, or lies below it. */
  predicate AtOrBelow(q: string, path: string) { q == path || Below(q, path) }

  /** Two keys without a dot that both continue base towards q are the same. */
  lemma SameSegment(base: string, a: string, b: string, q: string)
    requires '.' !in a && '.' !in b && AtOrBelow(q, base + a) && AtOrBelow(q, base + b)
    ensures a == b
  {
    if |a| < |b| {
      LongerHasDot(base, a, b, q);
    } else if |b| < |a| {
      LongerHasDot(base, b, a, q);
    } else {
      assert q[..|base| + |a|] == base + a == base + b;
      assert (base + a)[|base|..] == a && (base + b)[|base|..] == b;
    }
  }

  lemma LongerHasDot(base: string, a: string, b: string, q: string)
    requires AtOrBelow(q, base + a) && AtOrBelow(q, base + b) && |a| < |b|
    ensures '.' in b
  {
    assert |q| >= |base| + |b|;
    assert q[|base| + |a|] == (base + a + ".")[|base| + |a|] == '.';
    assert q[..|base| + |b|] == base + b;
    assert q[|base| + |a|] == (base + b)[|base| + |a|] == b[|a|];
  }

  function Base(path: string): string { if path == "" then "" else path + "." }

  lemma ChildText(path: string, key: string)
    ensures Child(path, key) == Base(path) + key
  {
  }

  /** A finding at or below a member's path was found in that member. */
  lemma {:induction false} FindingOfMember(p: Patterns, fields: seq<Member>, path: string, key: string, q: string)
    requires PlainFields(fields) && '.' !in key
    requires q in ScanFields(p, fields, path) && AtOrBelow(q, Child(path, key))
    ensures Lookup(fields, key).Some? && q in ScanField(p, Field(key, Lookup(fields, key).value), path)
  {
    if q in ScanField(p, fields[0], path) {
      ScannedFieldAtOrBelow(p, fields[0], path, q);
      ChildText(path, key);
      ChildText(path, fields[0].key);
      SameSegment(Base(path), key, fields[0].key, q);
      assert fields[0] == Field(key, fields[0].val);
    } else {
      FindingOfMember(p, fields[1..], path, key, q);
    }
  }

  /** A finding below an element's path was found in that element. */
  lemma FindingOfElement(p: Patterns, items: seq<Value>, first: nat, path: string, i: nat, q: string)
    requires items != [] && q in ScanItems(p, items, first, path) && Below(q, Element(path, i))
    ensures i == first ==>
              q in Scan(p, items[0], Element(path, first)) || q in ScanItems(p, items[1..], first + 1, path)
    ensures i != first ==> q in ScanItems(p, items[1..], first + 1, path)
  {
    if q in Scan(p, items[0], Element(path, first)) {
      ScannedBelow(p, items[0], Element(path, first), q);
      SameElement(path, first, i, q);
    }
  }

  lemma SameElement(path: string, i: nat, j: nat, q: string)
    requires Below(q, Element(path, i)) && Below(q, Element(path, j))
    ensures i == j
  {
    DecimalIsPlain(i);
    DecimalIsPlain(j);
    SameSegment(path + ".", Decimal(i), Decimal(j), q);
    DecimalInjective(i, j);
  }

  lemma {:induction false} FindingsAreLater(p: Patterns, items: seq<Value>, first: nat, path: string, i: nat, q: string)
    requires i < first && q in ScanItems(p, items, first, path)
    ensures !Below(q, Element(path, i))
  {
    if q in Scan(p, items[0], Element(path, first)) {
      ScannedBelow(p, items[0], Element(path, first), q);
      if Below(q, Element(path, i)) {
        SameElement(path, first, i, q);
      }
    } else {
      FindingsAreLater(p, items[1..], first + 1, path, i, q);
    }
  }

  // ---------------------------------------------------------------- the projection without paths

  /** The projection that asks, of every leaf, whether the member is tainted. */
  ghost function Untainted(p: Patterns, entries: seq<Entry>, fields: seq<Member>): seq<Member>
    decreases EntriesSize(entries), 0
  {
    if entries == [] then [] else UntaintedEntry(p, entries[0], fields) + Untainted(p, entries[1..], fields)
  }

  ghost function UntaintedEntry(p: Patterns, e: Entry, fields: seq<Member>): seq<Member>
    decreases EntrySize(e), 0
  {
    match Lookup(fields, e.key)
    case None => []
    case Some(v) =>
      match e
      case Leaf(key, kind) => if Accepts(kind, v) && !Tainted(p, Field(key, v)) then [Field(key, v)] else []
      case Sub(key, entries) => if v.Obj? then Wrapped(key, Untainted(p, entries, v.fields)) else []
      case Each(key, entries) => if v.Arr? then WrappedList(key, UntaintedItems(p, entries, v.items)) else []
  }

  ghost function UntaintedItems(p: Patterns, entries: seq<Entry>, items: seq<Value>): seq<Value>
    decreases EntriesSize(entries), 1 + |items|
  {
    if items == [] then []
    else
      (if items[0].Obj? then Kept(Untainted(p, entries, items[0].fields)) else [])
      + UntaintedItems(p, entries, items[1..])
  }

  /** The entries ask for plain keys only. */
  ghost predicate PlainEntries(entries: seq<Entry>)
    decreases EntriesSize(entries), 1
  {
    entries != [] ==> PlainEntry(entries[0]) && PlainEntries(entries[1..])
  }

  ghost predicate PlainEntry(e: Entry)
    decreases EntrySize(e), 1
  {
    && PlainKey(e.key)
    && match e
       case Leaf(_, _) => true
       case Sub(_, entries) => PlainEntries(entries)
       case Each(_, entries) => PlainEntries(entries)
  }

  /** The quarantined paths inside this object are exactly what scanning it finds. */
  ghost predicate LocalFields(p: Patterns, fields: seq<Member>, path: string, secrets: set<string>) {
    && AllIn(ScanFields(p, fields, path), secrets)
    && forall q :: q in secrets && (path == "" || Below(q, path)) ==> q in ScanFields(p, fields, path)
  }

  ghost predicate LocalItems(p: Patterns, items: seq<Value>, first: nat, path: string, secrets: set<string>) {
    && AllIn(ScanItems(p, items, first, path), secrets)
    && forall q, i :: q in secrets && first <= i && Below(q, Element(path, i)) ==> q in ScanItems(p, items, first, path)
  }

  /** Below a member's path the quarantined paths are what scanning that member finds. */
  lemma LocalMember(p: Patterns, fields: seq<Member>, path: string, secrets: set<string>, key: string, q: string)
    requires PlainFields(fields) && PlainKey(key) && LocalFields(p, fields, path, secrets)
    requires q in secrets && AtOrBelow(q, Child(path, key))
    ensures Lookup(fields, key).Some? && q in ScanField(p, Field(key, Lookup(fields, key).value), path)
  {
    if path != "" {
      BelowChild(q, path, key);
    }
    FindingOfMember(p, fields, path, key, q);
  }

  lemma LeafExact(p: Patterns, fields: seq<Member>, path: string, secrets: set<string>, key: string)
    requires PlainFields(fields) && PlainKey(key) && LocalFields(p, fields, path, secrets) && Lookup(fields, key).Some?
    ensures Skip(secrets, Child(path, key)) <==> Tainted(p, Field(key, Lookup(fields, key).value))
  {
    var f := Field(key, Lookup(fields, key).value);
    if Tainted(p, f) {
      LookupScanned(p, fields, key, path);
      TaintedIsSkipped(p, f, path, secrets);
    }
    if Skip(secrets, Child(path, key)) {
      var q :| q in secrets && AtOrBelow(q, Child(path, key));
      LocalMember(p, fields, path, secrets, key, q);
      ScanFieldFindsSecrets(p, f, path);
    }
  }

  lemma {:induction false} LookupPlain(fields: seq<Member>, key: string)
    requires PlainFields(fields) && Lookup(fields, key).Some?
    ensures Plain(Lookup(fields, key).value)
  {
    if fields[0].key != key {
      LookupPlain(fields[1..], key);
    }
  }

  lemma LocalSub(p: Patterns, fields: seq<Member>, path: string, secrets: set<string>, key: string)
    requires PlainFields(fields) && PlainKey(key) && !p.name(key) && LocalFields(p, fields, path, secrets)
    requires Lookup(fields, key).Some? && Lookup(fields, key).value.Obj?
    ensures LocalFields(p, Lookup(fields, key).value.fields, Child(path, key), secrets)
  {
    var f, inner := Field(key, Lookup(fields, key).value), Lookup(fields, key).value.fields;
    assert ScanField(p, f, path) == ScanFields(p, inner, Child(path, key));
    LookupScanned(p, fields, key, path);
    forall q | q in secrets && Below(q, Child(path, key)) ensures q in ScanFields(p, inner, Child(path, key)) {
      LocalMember(p, fields, path, secrets, key, q);
    }
  }

  lemma LocalEach(p: Patterns, fields: seq<Member>, path: string, secrets: set<string>, key: string)
    requires PlainFields(fields) && PlainKey(key) && !p.name(key) && LocalFields(p, fields, path, secrets)
    requires Lookup(fields, key).Some? && Lookup(fields, key).value.Arr?
    ensures LocalItems(p, Lookup(fields, key).value.items, 0, Child(path, key), secrets)
  {
    var f, items := Field(key, Lookup(fields, key).value), Lookup(fields, key).value.items;
    assert ScanField(p, f, path) == ScanItems(p, items, 0, Child(path, key));
    LookupScanned(p, fields, key, path);
    forall q, i: nat | q in secrets && 0 <= i && Below(q, Element(Child(path, key), i))
      ensures q in ScanItems(p, items, 0, Child(path, key))
    {
      BelowChild(q, Child(path, key), Decimal(i));
      LocalMember(p, fields, path, secrets, key, q);
    }
  }

  lemma LocalTail(p: Patterns, items: seq<Value>, first: nat, path: string, secrets: set<string>)
    requires items != [] && LocalItems(p, items, first, path, secrets)
    ensures LocalItems(p, items[1..], first + 1, path, secrets)
  {
    forall q, i: nat | q in secrets && first + 1 <= i && Below(q, Element(path, i))
      ensures q in ScanItems(p, items[1..], first + 1, path)
    {
      FindingOfElement(p, items, first, path, i, q);
    }
  }

  lemma LocalHead(p: Patterns, items: seq<Value>, first: nat, path: string, secrets: set<string>)
    requires items != [] && items[0].Obj? && LocalItems(p, items, first, path, secrets)
    ensures LocalFields(p, items[0].fields, Element(path, first), secrets)
  {
    var inner := items[0].fields;
    assert Scan(p, items[0], Element(path, first)) == ScanFields(p, inner, Element(path, first));
    forall q | q in secrets && Below(q, Element(path, first)) ensures q in ScanFields(p, inner, Element(path, first)) {
      FindingOfElement(p, items, first, path, first, q);
      if q in ScanItems(p, items[1..], first + 1, path) {
        FindingsAreLater(p, items[1..], first + 1, path, first, q);
      }
    }
  }

  lemma {:induction false} ProjectExact(p: Patterns, entries: seq<Entry>, fields: seq<Member>, path: string,
                                        secrets: set<string>)
    requires PublicNames(p, entries) && PlainEntries(entries) && PlainFields(fields)
    requires LocalFields(p, fields, path, secrets)
    ensures Project(entries, fields, path, secrets) == Untainted(p, entries, fields)
    decreases EntriesSize(entries), 2
  {
    if entries != [] {
      EntryExact(p, entries[0], fields, path, secrets);
      ProjectExact(p, entries[1..], fields, path, secrets);
    }
  }

  lemma {:induction false} EntryExact(p: Patterns, e: Entry, fields: seq<Member>, path: string, secrets: set<string>)
    requires PublicName(p, e) && PlainEntry(e) && PlainFields(fields) && LocalFields(p, fields, path, secrets)
    ensures ProjectEntry(e, fields, path, secrets) == UntaintedEntry(p, e, fields)
    decreases EntrySize(e), 2
  {
    var found := Lookup(fields, e.key);
    if found.Some? {
      LookupPlain(fields, e.key);
      match e
      case Leaf(key, _) => LeafExact(p, fields, path, secrets, key);
      case Sub(key, entries) =>
        if found.value.Obj? {
          LocalSub(p, fields, path, secrets, key);
          ProjectExact(p, entries, found.value.fields, Child(path, key), secrets);
        }
      case Each(key, entries) =>
        if found.value.Arr? {
          LocalEach(p, fields, path, secrets, key);
          ItemsExact(p, entries, found.value.items, 0, Child(path, key), secrets);
        }
    }
  }

  lemma {:induction false} ItemsExact(p: Patterns, entries: seq<Entry>, items: seq<Value>, first: nat, path: string,
                                      secrets: set<string>)
    requires PublicNames(p, entries) && PlainEntries(entries) && PlainItems(items)
    requires LocalItems(p, items, first, path, secrets)
    ensures ProjectItems(entries, items, first, path, secrets) == UntaintedItems(p, entries, items)
    decreases EntriesSize(entries), 3 + |items|
  {
    if items != [] {
      LocalTail(p, items, first, path, secrets);
      ItemsExact(p, entries, items[1..], first + 1, path, secrets);
      if items[0].Obj? {
        LocalHead(p, items, first, path, secrets);
        ProjectExact(p, entries, items[0].fields, Element(path, first), secrets);
      }
    }
  }

  /** With a dot in a key the texts run together: a flagged member url.token also hides a clean member url. */
  lemma DottedKeyHidesCleanMember()
    ensures var p := Patterns((name: string) => name == "url.token", (text: string) => false);
            var fields := [Field("url", Str("u")), Field("url.token", Str("t"))];
            var entries := [Leaf("url", NotNull)];
            && Untainted(p, entries, fields) == [Field("url", Str("u"))]
            && Project(entries, fields, "", set q | q in ScanFields(p, fields, "")) == []
  {
    var p := Patterns((name: string) => name == "url.token", (text: string) => false);
    var fields := [Field("url", Str("u")), Field("url.token", Str("t"))];
    var secrets := set q | q in ScanFields(p, fields, "");
    assert fields[1..] == [Field("url.token", Str("t"))] && fields[1..][1..] == [];
    assert ScanField(p, fields[1], "") == ["url.token"];
    assert ScanFields(p, fields[1..], "") == ["url.token"];
    assert "url.token" in ScanFields(p, fields, "");
    assert "url" + "." <= "url.token";
    assert Below("url.token", "url") && Skip(secrets, Child("", "url"));
    assert [Leaf("url", NotNull)][1..] == [];
  }
}
