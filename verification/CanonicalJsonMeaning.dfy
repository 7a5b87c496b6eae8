/** What a canonical text identifies: which values have one, which values share one, and the key order. */
module CanonicalJsonMeaning {
  import opened Order
  import opened Wrappers
  import opened JsonValue
  import opened CanonicalJson
  import opened CanonicalJsonReader

  // ---------------------------------------------------------------- key order

  lemma {:induction false} UnitsInRange(s: Text)
    ensures forall i :: 0 <= i < |Utf16(s)| ==> 0 <= Utf16(s)[i] < 0x10000
  {
    if s != [] {
      UnitsInRange(s[1..]);
    }
  }

  /** Comparing UTF-16BE bytes is comparing UTF-16 code units. */
  lemma {:induction false} ByteOrderIsUnitOrder(a: seq<int>, b: seq<int>)
    requires forall i :: 0 <= i < |a| ==> 0 <= a[i] < 0x10000
    requires forall i :: 0 <= i < |b| ==> 0 <= b[i] < 0x10000
    ensures Lex(IntBefore, BigEndian(a), BigEndian(b)) == Lex(IntBefore, a, b)
  {
    if a != [] && b != [] {
      ByteOrderIsUnitOrder(a[1..], b[1..]);
      var x, y := BigEndian(a), BigEndian(b);
      assert x[1..] == [a[0] % 256] + BigEndian(a[1..]) && y[1..] == [b[0] % 256] + BigEndian(b[1..]);
      assert x[1..][1..] == BigEndian(a[1..]) && y[1..][1..] == BigEndian(b[1..]);
      assert a[0] == 256 * (a[0] / 256) + a[0] % 256 && b[0] == 256 * (b[0] / 256) + b[0] % 256;
    }
  }

  lemma KeyOrderIsUnitOrder(a: Field<Text>, b: Field<Text>)
    ensures FieldBefore(a, b) == Lex(IntBefore, Utf16(a.key), Utf16(b.key))
  {
    UnitsInRange(a.key);
    UnitsInRange(b.key);
    ByteOrderIsUnitOrder(Utf16(a.key), Utf16(b.key));
  }

  /** That is not the order of code points: U+10000 sorts before U+FFFF. */
  lemma UnitOrderIsNotCodePointOrder()
    ensures FieldBefore(Field([0x10000], Null), Field([0xFFFF], Null))
    ensures Lex(IntBefore, [0xFFFF], [0x10000])
  {
    var a: Text, b: Text := [0x10000], [0xFFFF];
    KeyOrderIsUnitOrder(Field(a, Null), Field(b, Null));
    assert Utf16(a)[0] == 0xD800 && Utf16(b)[0] == 0xFFFF;
  }

  lemma {:induction false} Utf16Injective(a: Text, b: Text)
    requires Encodable(a) && Encodable(b) && Utf16(a) == Utf16(b)
    ensures a == b
  {
    if a != [] && b != [] {
      var u := Utf16(a);
      assert u[0] == Units(a[0])[0] && Utf16(b)[0] == Units(b[0])[0];
      assert |Units(a[0])| == |Units(b[0])|;
      assert |Units(a[0])| == 2 ==> u[1] == Units(a[0])[1] && Utf16(b)[1] == Units(b[0])[1];
      assert a[0] == b[0];
      var k := |Units(a[0])|;
      assert Utf16(a[1..]) == u[k..] && Utf16(b[1..]) == Utf16(b)[k..];
      Utf16Injective(a[1..], b[1..]);
      assert a == [a[0]] + a[1..] && b == [b[0]] + b[1..];
    }
  }

  lemma FieldOrderStrict()
    ensures StrictOrder(FieldBefore)
  {
    var lex := (a: seq<int>, b: seq<int>) => Lex(IntBefore, a, b);
    LexStrictTotal(IntBefore);
    forall a: Field<Text> ensures !FieldBefore(a, a) {
      assert !lex(BigEndian(Utf16(a.key)), BigEndian(Utf16(a.key)));
    }
    forall a: Field<Text>, b: Field<Text>, c: Field<Text> | FieldBefore(a, b) && FieldBefore(b, c)
      ensures FieldBefore(a, c)
    {
      assert lex(BigEndian(Utf16(a.key)), BigEndian(Utf16(b.key)));
      assert lex(BigEndian(Utf16(b.key)), BigEndian(Utf16(c.key)));
      assert lex(BigEndian(Utf16(a.key)), BigEndian(Utf16(c.key)));
    }
  }

  lemma FieldOrderTotal(a: Field<Text>, b: Field<Text>)
    requires Encodable(a.key) && Encodable(b.key) && a.key != b.key
    ensures FieldBefore(a, b) || FieldBefore(b, a)
  {
    KeyOrderIsUnitOrder(a, b);
    KeyOrderIsUnitOrder(b, a);
    if Utf16(a.key) == Utf16(b.key) {
      Utf16Injective(a.key, b.key);
    }
    LexDecides(IntBefore, Utf16(a.key), Utf16(b.key));
  }

  // ---------------------------------------------------------------- which values have a text

  /** No integer outside the safe range, no lone surrogate, no nesting beyond room levels. */
  ghost predicate Acceptable(v: Value, room: int)
    decreases v
  {
    room >= 0 &&
    match v
    case Int(n) => -MAX_SAFE_INTEGER <= n <= MAX_SAFE_INTEGER
    case Str(s) => Encodable(s)
    case Arr(items) => forall i :: 0 <= i < |items| ==> Acceptable(items[i], room - 1)
    case Obj(fields) => forall i :: 0 <= i < |fields| ==> AcceptableField(fields[i], room - 1)
    case _ => true
  }

  ghost predicate AcceptableField(f: Field<Text>, room: int)
    decreases f
  {
    Encodable(f.key) && Acceptable(f.val, room)
  }

  lemma {:induction false} CanonicalAccepts(v: Value, depth: nat)
    ensures Canonical(v, depth).Ok? <==> Acceptable(v, MAX_DEPTH - depth)
    decreases Size(v), 0
  {
    match v
    case Arr(items) => ItemsAccept(items, depth + 1);
    case Obj(fields) =>
      SortKeepsSize(fields);
      FieldsAccept(SortBy(FieldBefore, fields), depth + 1);
      ObjectAccepts(fields, depth);
    case _ =>
  }

  lemma ObjectAccepts(fields: seq<Field<Text>>, depth: nat)
    requires var sorted := SortBy(FieldBefore, fields);
             PrintFields(sorted, depth + 1).Ok? <==>
             forall i :: 0 <= i < |sorted| ==> AcceptableField(sorted[i], MAX_DEPTH - depth - 1)
    ensures Canonical(Obj(fields), depth).Ok? <==> Acceptable(Obj(fields), MAX_DEPTH - depth)
  {
    var sorted := SortBy(FieldBefore, fields);
    SortMembers(FieldBefore, fields);
    if Acceptable(Obj(fields), MAX_DEPTH - depth) {
      forall i | 0 <= i < |sorted| ensures AcceptableField(sorted[i], MAX_DEPTH - depth - 1) {
        assert sorted[i] in sorted && sorted[i] in fields;
      }
      assert forall i :: 0 <= i < |fields| ==> AcceptableField(fields[i], MAX_DEPTH - depth - 1);
    } else if depth <= MAX_DEPTH {
      var i :| 0 <= i < |fields| && !AcceptableField(fields[i], MAX_DEPTH - depth - 1);
      assert fields[i] in sorted;
    }
  }

  lemma {:induction false} ItemsAccept(items: seq<Value>, depth: nat)
    ensures PrintItems(items, depth).Ok? <==> forall i :: 0 <= i < |items| ==> Acceptable(items[i], MAX_DEPTH - depth)
    decreases SizeItems(items), 1
  {
    if items != [] {
      CanonicalAccepts(items[0], depth);
      ItemsAccept(items[1..], depth);
      assert forall i :: 0 <= i < |items| - 1 ==> items[1..][i] == items[i + 1];
      if forall i :: 0 <= i < |items[1..]| ==> Acceptable(items[1..][i], MAX_DEPTH - depth) {
        forall i | 0 < i < |items| ensures Acceptable(items[i], MAX_DEPTH - depth) {
          assert items[1..][i - 1] == items[i];
        }
      }
    }
  }

  lemma {:induction false} FieldsAccept(fields: seq<Field<Text>>, depth: nat)
    ensures PrintFields(fields, depth).Ok? <==>
            forall i :: 0 <= i < |fields| ==> AcceptableField(fields[i], MAX_DEPTH - depth)
    decreases SizeFields(fields), 1
  {
    if fields != [] {
      assert SizeField(fields[0]) == 1 + Size(fields[0].val);
      CanonicalAccepts(fields[0].val, depth);
      FieldsAccept(fields[1..], depth);
      if forall i :: 0 <= i < |fields[1..]| ==> AcceptableField(fields[1..][i], MAX_DEPTH - depth) {
        forall i | 0 < i < |fields| ensures AcceptableField(fields[i], MAX_DEPTH - depth) {
          assert fields[1..][i - 1] == fields[i];
        }
      }
      assert forall i :: 0 <= i < |fields| - 1 ==> fields[1..][i] == fields[i + 1];
    }
  }

  /** A value is accepted exactly when it is well formed, at most 32 levels deep and at most 1 MiB long. */
  lemma PrintAccepts(v: Value)
    ensures Canonical(v, 0).Ok? <==> Acceptable(v, MAX_DEPTH)
    ensures Print(v).Ok? <==>
            Acceptable(v, MAX_DEPTH) && (Canonical(v, 0).Ok? ==> Utf8Length(Canonical(v, 0).value) <= MAX_BYTES)
  {
    CanonicalAccepts(v, 0);
  }

  /** The value holds, in it or below it, what this fault names. */
  ghost predicate Blames(v: Value, room: int, fault: Fault)
    decreases v
  {
    || (fault == TooDeep && room < 0)
    || match v
       case Int(n) => fault == UnsafeInteger && !(-MAX_SAFE_INTEGER <= n <= MAX_SAFE_INTEGER)
       case Str(s) => fault == LoneSurrogate && !Encodable(s)
       case Arr(items) => exists i :: 0 <= i < |items| && Blames(items[i], room - 1, fault)
       case Obj(fields) => exists i :: 0 <= i < |fields| && FieldBlames(fields[i], room - 1, fault)
       case _ => false
  }

  ghost predicate FieldBlames(f: Field<Text>, room: int, fault: Fault)
    decreases f
  {
    (fault == LoneSurrogate && !Encodable(f.key)) || Blames(f.val, room, fault)
  }

  lemma {:induction false} CanonicalBlames(v: Value, depth: nat)
    ensures Canonical(v, depth).Err? ==> Blames(v, MAX_DEPTH - depth, Canonical(v, depth).error)
    decreases Size(v), 0
  {
    match v
    case Arr(items) => ItemsBlame(items, depth + 1);
    case Obj(fields) =>
      SortKeepsSize(fields);
      FieldsBlame(SortBy(FieldBefore, fields), depth + 1);
      ObjectBlames(fields, depth);
    case _ =>
  }

  lemma ObjectBlames(fields: seq<Field<Text>>, depth: nat)
    requires var sorted := SortBy(FieldBefore, fields);
             PrintFields(sorted, depth + 1).Err? ==>
               exists i :: && 0 <= i < |sorted|
                           && FieldBlames(sorted[i], MAX_DEPTH - depth - 1, PrintFields(sorted, depth + 1).error)
    ensures Canonical(Obj(fields), depth).Err? ==>
              Blames(Obj(fields), MAX_DEPTH - depth, Canonical(Obj(fields), depth).error)
  {
    var v, sorted := Obj(fields), SortBy(FieldBefore, fields);
    if Canonical(v, depth).Err? && depth <= MAX_DEPTH {
      var fault := Canonical(v, depth).error;
      if i :| 0 <= i < |fields| && !Encodable(fields[i].key) {
        assert FieldBlames(fields[i], MAX_DEPTH - depth - 1, fault);
      } else {
        var i :| 0 <= i < |sorted| && FieldBlames(sorted[i], MAX_DEPTH - depth - 1, fault);
        SortMembers(FieldBefore, fields);
        assert sorted[i] in sorted && sorted[i] in fields;
        var k :| 0 <= k < |fields| && fields[k] == sorted[i];
        assert FieldBlames(fields[k], MAX_DEPTH - depth - 1, fault);
      }
    }
  }

  lemma {:induction false} ItemsBlame(items: seq<Value>, depth: nat)
    ensures PrintItems(items, depth).Err? ==>
              exists i :: 0 <= i < |items| && Blames(items[i], MAX_DEPTH - depth, PrintItems(items, depth).error)
    decreases SizeItems(items), 1
  {
    if items != [] {
      CanonicalBlames(items[0], depth);
      ItemsBlame(items[1..], depth);
      if Canonical(items[0], depth).Ok? && PrintItems(items, depth).Err? {
        var fault := PrintItems(items, depth).error;
        var i :| 0 <= i < |items[1..]| && Blames(items[1..][i], MAX_DEPTH - depth, fault);
        assert items[1..][i] == items[i + 1];
      }
    }
  }

  lemma {:induction false} FieldsBlame(fields: seq<Field<Text>>, depth: nat)
    ensures PrintFields(fields, depth).Err? ==>
              exists i :: && 0 <= i < |fields|
                          && FieldBlames(fields[i], MAX_DEPTH - depth, PrintFields(fields, depth).error)
    decreases SizeFields(fields), 1
  {
    if fields != [] && PrintFields(fields, depth).Err? {
      assert SizeField(fields[0]) == 1 + Size(fields[0].val);
      CanonicalBlames(fields[0].val, depth);
      FieldsBlame(fields[1..], depth);
      var fault := PrintFields(fields, depth).error;
      if Encodable(fields[0].key) && Canonical(fields[0].val, depth).Ok? {
        var i :| 0 <= i < |fields[1..]| && FieldBlames(fields[1..][i], MAX_DEPTH - depth, fault);
        assert fields[1..][i] == fields[i + 1];
      } else {
        assert FieldBlames(fields[0], MAX_DEPTH - depth, fault);
      }
    }
  }

  /** A refusal names a fault that is there: nesting beyond 32 levels, an integer outside the safe range, a lone
      surrogate, or, if there is none of these, a text of more than 1 MiB. */
  lemma PrintBlames(v: Value)
    ensures Print(v) == Err(TooLarge) <==>
            Acceptable(v, 32) && (Canonical(v, 0).Ok? ==> Utf8Length(Canonical(v, 0).value) > 1048576)
    ensures Print(v).Err? && Print(v).error != TooLarge ==> Blames(v, 32, Print(v).error)
  {
    CanonicalAccepts(v, 0);
    CanonicalBlames(v, 0);
    assert !Blames(v, 32, TooLarge) by { NeverTooLarge(v, 32); }
  }

  lemma NeverTooLarge(v: Value, room: int)
    ensures !Blames(v, room, TooLarge)
    decreases v
  {
    match v
    case Arr(items) => forall i | 0 <= i < |items| ensures !Blames(items[i], room - 1, TooLarge) {
      NeverTooLarge(items[i], room - 1);
    }
    case Obj(fields) => forall i | 0 <= i < |fields| ensures !FieldBlames(fields[i], room - 1, TooLarge) {
      NeverTooLargeField(fields[i], room - 1);
    }
    case _ =>
  }

  lemma NeverTooLargeField(f: Field<Text>, room: int)
    ensures !FieldBlames(f, room, TooLarge)
    decreases f
  {
    NeverTooLarge(f.val, room);
  }

  // ---------------------------------------------------------------- which values share a text

  /** A value as a Python caller can build it: the keys of every object are distinct. */
  ghost predicate DistinctKeys(v: Value)
    decreases v
  {
    match v
    case Arr(items) => forall i :: 0 <= i < |items| ==> DistinctKeys(items[i])
    case Obj(fields) =>
      && (forall i :: 0 <= i < |fields| ==> DistinctKeysField(fields[i]))
      && (forall i, j :: 0 <= i < j < |fields| ==> fields[i].key != fields[j].key)
    case _ => true
  }

  ghost predicate DistinctKeysField(f: Field<Text>)
    decreases f
  {
    DistinctKeys(f.val)
  }

  /** Equality of JSON values: lists by position, objects by key, whatever the insertion order. */
  ghost predicate SameValue(v: Value, w: Value)
    decreases v
  {
    if v.Arr? && w.Arr? then
      && |v.items| == |w.items|
      && forall i :: 0 <= i < |v.items| ==> SameValue(v.items[i], w.items[i])
    else if v.Obj? && w.Obj? then
      && |v.fields| == |w.fields|
      && forall i :: 0 <= i < |v.fields| ==> HasField(v.fields[i], w.fields)
    else v == w
  }

  ghost predicate HasField(f: Field<Text>, gs: seq<Field<Text>>)
    decreases f
  {
    exists j :: 0 <= j < |gs| && gs[j].key == f.key && SameValue(f.val, gs[j].val)
  }

  lemma {:induction false} NormalAt(items: seq<Value>)
    ensures |NormalItems(items)| == |items|
    ensures forall i :: 0 <= i < |items| ==> NormalItems(items)[i] == Normal(items[i])
  {
    if items != [] {
      NormalAt(items[1..]);
    }
  }

  lemma {:induction false} NormalFieldAt(fields: seq<Field<Text>>)
    ensures |NormalFields(fields)| == |fields|
    ensures forall i :: 0 <= i < |fields| ==> NormalFields(fields)[i] == NormalField(fields[i])
  {
    if fields != [] {
      NormalFieldAt(fields[1..]);
    }
  }

  /** Lists without repeats, one inside the other and equally long, hold the same elements. */
  lemma {:induction false} SameElements<T>(a: seq<T>, b: seq<T>)
    requires |a| == |b|
    requires forall i, j :: 0 <= i < j < |a| ==> a[i] != a[j]
    requires forall i :: 0 <= i < |a| ==> a[i] in b
    ensures multiset(a) == multiset(b)
  {
    if a != [] {
      assert a[0] in b;
      var j :| 0 <= j < |b| && b[j] == a[0];
      var b' := b[..j] + b[j + 1..];
      assert b == b[..j] + [b[j]] + b[j + 1..] && a == [a[0]] + a[1..];
      forall i | 0 <= i < |a[1..]| ensures a[1..][i] in b' {
        assert a[1..][i] == a[i + 1] && a[i + 1] in b && a[i + 1] != b[j];
      }
      SameElements(a[1..], b');
    }
  }

  ghost predicate KeysOk(fs: seq<Field<Text>>) {
    && (forall i :: 0 <= i < |fs| ==> Encodable(fs[i].key))
    && (forall i, j :: 0 <= i < j < |fs| ==> fs[i].key != fs[j].key)
  }

  lemma AcceptableKeys(fs: seq<Field<Text>>, room: int)
    requires Acceptable(Obj(fs), room) && DistinctKeys(Obj(fs))
    ensures KeysOk(fs) && KeysOk(NormalFields(fs))
  {
    NormalFieldAt(fs);
    assert forall i :: 0 <= i < |fs| ==> AcceptableField(fs[i], room - 1);
  }

  /** With distinct keys the sorted field list depends only on which fields there are. */
  lemma SortDetermined(a: seq<Field<Text>>, b: seq<Field<Text>>)
    requires KeysOk(a) && KeysOk(b) && multiset(a) == multiset(b)
    ensures SortBy(FieldBefore, a) == SortBy(FieldBefore, b)
  {
    forall i, j | 0 <= i < j < |a| ensures FieldBefore(a[i], a[j]) || FieldBefore(a[j], a[i]) {
      FieldOrderTotal(a[i], a[j]);
    }
    forall i, j | 0 <= i < j < |b| ensures FieldBefore(b[i], b[j]) || FieldBefore(b[j], b[i]) {
      FieldOrderTotal(b[i], b[j]);
    }
    SortMultiset(FieldBefore, a);
    SortMultiset(FieldBefore, b);
    FieldOrderStrict();
    SortSorted(FieldBefore, a);
    SortSorted(FieldBefore, b);
    SortedUnique(FieldBefore, SortBy(FieldBefore, a), SortBy(FieldBefore, b));
  }

  /** Two acceptable values have the same normal form exactly when they are the same JSON value. */
  lemma {:induction false} NormalIffSame(v: Value, w: Value, room: int)
    requires Acceptable(v, room) && Acceptable(w, room) && DistinctKeys(v) && DistinctKeys(w)
    ensures Normal(v) == Normal(w) <==> SameValue(v, w)
    decreases v
  {
    if v.Arr? && w.Arr? {
      NormalAt(v.items);
      NormalAt(w.items);
      if |v.items| == |w.items| {
        forall i | 0 <= i < |v.items|
          ensures Normal(v.items[i]) == Normal(w.items[i]) <==> SameValue(v.items[i], w.items[i])
        {
          NormalIffSame(v.items[i], w.items[i], room - 1);
        }
      }
    } else if v.Obj? && w.Obj? {
      forall i, j | 0 <= i < |v.fields| && 0 <= j < |w.fields|
        ensures Normal(v.fields[i].val) == Normal(w.fields[j].val) <==> SameValue(v.fields[i].val, w.fields[j].val)
      {
        assert AcceptableField(v.fields[i], room - 1) && AcceptableField(w.fields[j], room - 1);
        assert DistinctKeysField(v.fields[i]) && DistinctKeysField(w.fields[j]);
        NormalIffSame(v.fields[i].val, w.fields[j].val, room - 1);
      }
      if SameValue(v, w) {
        AcceptableKeys(v.fields, room);
        AcceptableKeys(w.fields, room);
        SameSorts(v.fields, w.fields);
      } else if Normal(v) == Normal(w) {
        NormalFinds(v.fields, w.fields);
      }
    }
  }

  lemma SameSorts(fs: seq<Field<Text>>, gs: seq<Field<Text>>)
    requires KeysOk(fs) && KeysOk(gs) && KeysOk(NormalFields(fs)) && KeysOk(NormalFields(gs))
    requires forall i, j :: 0 <= i < |fs| && 0 <= j < |gs| && SameValue(fs[i].val, gs[j].val) ==>
                              Normal(fs[i].val) == Normal(gs[j].val)
    requires |fs| == |gs| && forall i :: 0 <= i < |fs| ==> HasField(fs[i], gs)
    ensures Normal(Obj(fs)) == Normal(Obj(gs))
  {
    var a, b := NormalFields(fs), NormalFields(gs);
    NormalFieldAt(fs);
    NormalFieldAt(gs);
    forall i | 0 <= i < |a| ensures a[i] in b {
      var j :| 0 <= j < |gs| && gs[j].key == fs[i].key && SameValue(fs[i].val, gs[j].val);
      assert a[i] == NormalField(fs[i]) == b[j];
    }
    SameElements(a, b);
    SortDetermined(a, b);
  }

  lemma NormalFinds(fs: seq<Field<Text>>, gs: seq<Field<Text>>)
    requires forall i, j :: 0 <= i < |fs| && 0 <= j < |gs| && Normal(fs[i].val) == Normal(gs[j].val) ==>
                              SameValue(fs[i].val, gs[j].val)
    requires Normal(Obj(fs)) == Normal(Obj(gs))
    ensures |fs| == |gs| && forall i :: 0 <= i < |fs| ==> HasField(fs[i], gs)
  {
    var a, b := NormalFields(fs), NormalFields(gs);
    NormalFieldAt(fs);
    NormalFieldAt(gs);
    SortMultiset(FieldBefore, a);
    SortMultiset(FieldBefore, b);
    assert |a| == |multiset(a)| == |multiset(b)| == |b|;
    forall i | 0 <= i < |fs| ensures HasField(fs[i], gs) {
      assert a[i] in multiset(b);
      var j :| 0 <= j < |b| && b[j] == a[i];
      assert NormalField(fs[i]) == NormalField(gs[j]);
    }
  }

  // ---------------------------------------------------------------- the text is a faithful name

  /** Sorting the fields beforehand, at any level, does not change the text. */
  lemma {:induction false} NormalPrintsSame(v: Value, depth: nat)
    requires Canonical(v, depth).Ok? && DistinctKeys(v)
    ensures Canonical(Normal(v), depth) == Canonical(v, depth)
    decreases Size(v), 0
  {
    CanonicalAccepts(v, depth);
    match v
    case Arr(items) => NormalItemsPrintSame(items, depth + 1);
    case Obj(fields) =>
      var sorted := SortBy(FieldBefore, fields);
      SortKeepsSize(fields);
      SortMembers(FieldBefore, fields);
      forall i | 0 <= i < |sorted| ensures DistinctKeysField(sorted[i]) {
        assert sorted[i] in sorted && sorted[i] in fields;
      }
      NormalFieldsPrintSame(sorted, depth + 1);
      ObjectPrintsSame(fields, depth);
    case _ =>
  }

  lemma {:induction false} NormalItemsPrintSame(items: seq<Value>, depth: nat)
    requires PrintItems(items, depth).Ok? && forall i :: 0 <= i < |items| ==> DistinctKeys(items[i])
    ensures PrintItems(NormalItems(items), depth) == PrintItems(items, depth)
    decreases SizeItems(items), 1
  {
    if items != [] {
      NormalPrintsSame(items[0], depth);
      NormalItemsPrintSame(items[1..], depth);
      NormalAt(items);
      assert NormalItems(items)[1..] == NormalItems(items[1..]);
    }
  }

  lemma {:induction false} NormalFieldsPrintSame(fields: seq<Field<Text>>, depth: nat)
    requires PrintFields(fields, depth).Ok? && forall i :: 0 <= i < |fields| ==> DistinctKeysField(fields[i])
    ensures PrintFields(NormalFields(fields), depth) == PrintFields(fields, depth)
    decreases SizeFields(fields), 1
  {
    if fields != [] {
      assert SizeField(fields[0]) == 1 + Size(fields[0].val) && DistinctKeysField(fields[0]);
      NormalPrintsSame(fields[0].val, depth);
      NormalFieldsPrintSame(fields[1..], depth);
      NormalFieldAt(fields);
      assert NormalFields(fields)[1..] == NormalFields(fields[1..]);
    }
  }

  lemma ObjectPrintsSame(fields: seq<Field<Text>>, depth: nat)
    requires Canonical(Obj(fields), depth).Ok?
    requires Acceptable(Obj(fields), MAX_DEPTH - depth) && DistinctKeys(Obj(fields))
    requires var sorted := SortBy(FieldBefore, fields);
             PrintFields(NormalFields(sorted), depth + 1) == PrintFields(sorted, depth + 1)
    ensures Canonical(Normal(Obj(fields)), depth) == Canonical(Obj(fields), depth)
  {
    var a := NormalFields(fields);
    var s := SortBy(FieldBefore, a);
    AcceptableKeys(fields, MAX_DEPTH - depth);
    NormalSort(fields);
    SortMembers(FieldBefore, a);
    forall i | 0 <= i < |s| ensures Encodable(s[i].key) {
      assert s[i] in s && s[i] in a;
    }
    ResortIsSame(a);
  }

  lemma ResortIsSame(a: seq<Field<Text>>)
    requires KeysOk(a)
    ensures SortBy(FieldBefore, SortBy(FieldBefore, a)) == SortBy(FieldBefore, a)
  {
    forall i, j | 0 <= i < j < |a| ensures FieldBefore(a[i], a[j]) || FieldBefore(a[j], a[i]) {
      FieldOrderTotal(a[i], a[j]);
    }
    FieldOrderStrict();
    SortSorted(FieldBefore, a);
    var s := SortBy(FieldBefore, a);
    SortSorted(FieldBefore, s);
    SortMultiset(FieldBefore, s);
    SortedUnique(FieldBefore, SortBy(FieldBefore, s), s);
  }

  /** Two values that have a canonical text have the same one exactly when they are the same JSON value, in
      particular whatever order their object fields were inserted in. */
  lemma TextIdentifiesValue(v: Value, w: Value)
    requires Print(v).Ok? && Print(w).Ok? && DistinctKeys(v) && DistinctKeys(w)
    ensures Print(v) == Print(w) <==> SameValue(v, w)
  {
    PrintAccepts(v);
    PrintAccepts(w);
    RoundTrip(v);
    RoundTrip(w);
    NormalIffSame(v, w, MAX_DEPTH);
    NormalPrintsSame(v, 0);
    NormalPrintsSame(w, 0);
  }

  /** Reading a canonical text and printing the result again reproduces the text. */
  lemma ReprintIsSame(v: Value)
    requires Print(v).Ok? && DistinctKeys(v)
    ensures Parse(Print(v).value).Some? && Print(Parse(Print(v).value).value) == Print(v)
  {
    RoundTrip(v);
    NormalPrintsSame(v, 0);
  }
}
