/** What the secret scan and the bounds check mean, position by position in a JSON tree. */
module SecretScanExact {
  import opened Wrappers
  import opened JsonValue
  import opened SecretScan
  import ProjectionExact

  // ---------------------------------------------------------------- findings

  /** q is the path of a flagged member below v, none of whose containers is flagged itself. */
  ghost predicate FoundIn(p: Patterns, v: Value, path: string, q: string)
    decreases v
  {
    match v
    case Obj(fields) => exists i :: 0 <= i < |fields| && FoundMember(p, fields[i], path, q)
    case Arr(items) => exists i :: 0 <= i < |items| && FoundIn(p, items[i], path + "." + Decimal(i), q)
    case _ => false
  }

  /** A member is flagged for its name, or for the string it holds; only one that is not is entered. */
  ghost predicate FoundMember(p: Patterns, f: Member, path: string, q: string)
    decreases f
  {
    var child := if path == "" then f.key else path + "." + f.key;
    if p.name(f.key) || (f.val.Str? && p.text(f.val.s)) then q == child else FoundIn(p, f.val, child, q)
  }

  /** The scan finds exactly those. */
  lemma {:induction false} ScanIsExact(p: Patterns, v: Value, path: string, q: string)
    ensures q in Scan(p, v, path) <==> FoundIn(p, v, path, q)
    decreases Size(v), 1
  {
    match v
    case Obj(fields) => FieldsAreExact(p, fields, path, q);
    case Arr(items) => ItemsAreExact(p, items, 0, path, q);
    case _ =>
  }

  lemma {:induction false} FieldsAreExact(p: Patterns, fields: seq<Member>, path: string, q: string)
    ensures q in ScanFields(p, fields, path) <==> exists i :: 0 <= i < |fields| && FoundMember(p, fields[i], path, q)
    decreases SizeFields(fields), 2
  {
    if fields != [] {
      var f, rest := fields[0], fields[1..];
      assert SizeField(f) == 1 + Size(f.val);
      ScanIsExact(p, f.val, Child(path, f.key), q);
      FieldsAreExact(p, rest, path, q);
      assert q in ScanField(p, f, path) <==> FoundMember(p, f, path, q);
      assert forall i :: 0 <= i < |rest| ==> rest[i] == fields[i + 1];
      if i :| 0 <= i < |rest| && FoundMember(p, rest[i], path, q) {
        assert FoundMember(p, fields[i + 1], path, q);
      }
      if i :| 0 <= i < |fields| && FoundMember(p, fields[i], path, q) {
        assert i > 0 ==> FoundMember(p, rest[i - 1], path, q);
      }
    }
  }

  lemma {:induction false} ItemsAreExact(p: Patterns, items: seq<Value>, first: nat, path: string, q: string)
    ensures q in ScanItems(p, items, first, path) <==>
            exists i :: 0 <= i < |items| && FoundIn(p, items[i], path + "." + Decimal(first + i), q)
    decreases SizeItems(items), 2
  {
    if items != [] {
      var rest := items[1..];
      ScanIsExact(p, items[0], Element(path, first), q);
      ItemsAreExact(p, rest, first + 1, path, q);
      assert Element(path, first) == path + "." + Decimal(first + 0);
      if i :| 0 <= i < |rest| && FoundIn(p, rest[i], path + "." + Decimal(first + 1 + i), q) {
        assert FoundIn(p, items[i + 1], path + "." + Decimal(first + (i + 1)), q);
      }
      if i :| 0 <= i < |items| && FoundIn(p, items[i], path + "." + Decimal(first + i), q) {
        assert i > 0 ==> FoundIn(p, rest[i - 1], path + "." + Decimal(first + 1 + (i - 1)), q);
      }
    }
  }

  /** With plain keys it finds each of them once. */
  lemma {:induction false} ScanDistinct(p: Patterns, v: Value, path: string)
    requires ProjectionExact.Plain(v)
    ensures Distinct(Scan(p, v, path))
    decreases Size(v), 1
  {
    match v
    case Obj(fields) => FieldsDistinct(p, fields, path);
    case Arr(items) => ItemsDistinct(p, items, 0, path);
    case _ =>
  }

  lemma {:induction false} FieldsDistinct(p: Patterns, fields: seq<Member>, path: string)
    requires ProjectionExact.PlainFields(fields)
    ensures Distinct(ScanFields(p, fields, path))
    decreases SizeFields(fields), 2
  {
    if fields != [] {
      var f, rest := fields[0], fields[1..];
      assert SizeField(f) == 1 + Size(f.val);
      ScanDistinct(p, f.val, Child(path, f.key));
      FieldsDistinct(p, rest, path);
      forall q | q in ScanField(p, f, path) ensures q !in ScanFields(p, rest, path) {
        ScannedFieldAtOrBelow(p, f, path, q);
        if q in ScanFields(p, rest, path) {
          ProjectionExact.FindingOfMember(p, rest, path, f.key, q);
        }
      }
      ConcatDistinct(ScanField(p, f, path), ScanFields(p, rest, path));
    }
  }

  lemma {:induction false} ItemsDistinct(p: Patterns, items: seq<Value>, first: nat, path: string)
    requires ProjectionExact.PlainItems(items)
    ensures Distinct(ScanItems(p, items, first, path))
    decreases SizeItems(items), 2
  {
    if items != [] {
      var rest := items[1..];
      ScanDistinct(p, items[0], Element(path, first));
      ItemsDistinct(p, rest, first + 1, path);
      forall q | q in Scan(p, items[0], Element(path, first)) ensures q !in ScanItems(p, rest, first + 1, path) {
        ScannedBelow(p, items[0], Element(path, first), q);
        if q in ScanItems(p, rest, first + 1, path) {
          ProjectionExact.FindingsAreLater(p, rest, first + 1, path, first, q);
        }
      }
      ConcatDistinct(Scan(p, items[0], Element(path, first)), ScanItems(p, rest, first + 1, path));
    }
  }

  // ---------------------------------------------------------------- positions

  /** A way down from a value: which member or element to take, again and again. */
  type Position = seq<nat>

  function At(v: Value, pos: Position): Option<Value>
    decreases |pos|
  {
    if pos == [] then Some(v)
    else
      match v
      case Obj(fields) => if pos[0] < |fields| then At(fields[pos[0]].val, pos[1..]) else None
      case Arr(items) => if pos[0] < |items| then At(items[pos[0]], pos[1..]) else None
      case _ => None
  }

  /** The values right below. */
  function Children(v: Value): seq<Value> {
    match v
    case Obj(fields) => seq(|fields|, i requires 0 <= i < |fields| => fields[i].val)
    case Arr(items) => items
    case _ => []
  }

  lemma AtChild(v: Value, pos: Position)
    requires pos != []
    ensures At(v, pos) == if pos[0] < |Children(v)| then At(Children(v)[pos[0]], pos[1..]) else None
  {
  }

  lemma {:induction false} ChildIsSmaller(v: Value, i: nat)
    requires i < |Children(v)|
    ensures Size(Children(v)[i]) < Size(v)
  {
    match v
    case Obj(fields) => SizeOfMember(fields, i);
    case Arr(items) => SizeOfItem(items, i);
  }

  lemma {:induction false} ItemsWithinAll(items: seq<Value>, allowed: int)
    ensures ItemsWithin(items, allowed) <==> forall i :: 0 <= i < |items| ==> Within(items[i], allowed)
  {
    if items != [] {
      ItemsWithinAll(items[1..], allowed);
      assert forall i :: 0 < i < |items| ==> items[i] == items[1..][i - 1];
    }
  }

  lemma {:induction false} FieldsWithinAll(fields: seq<Member>, allowed: int)
    ensures FieldsWithin(fields, allowed) <==> forall i :: 0 <= i < |fields| ==> Within(fields[i].val, allowed)
  {
    if fields != [] {
      FieldsWithinAll(fields[1..], allowed);
      assert forall i :: 0 < i < |fields| ==> fields[i] == fields[1..][i - 1];
    }
  }

  lemma WithinChildren(v: Value, allowed: int)
    ensures Within(v, allowed) <==>
            allowed >= 0 && forall i :: 0 <= i < |Children(v)| ==> Within(Children(v)[i], allowed - 1)
  {
    match v
    case Obj(fields) =>
      FieldsWithinAll(fields, allowed - 1);
      assert |Children(v)| == |fields| && forall i :: 0 <= i < |fields| ==> Children(v)[i] == fields[i].val;
    case Arr(items) =>
      ItemsWithinAll(items, allowed - 1);
      assert Children(v) == items;
    case _ =>
  }

  /** A value is within a depth exactly if no position in it is longer. */
  lemma {:induction false} WithinIsDepth(v: Value, allowed: int)
    ensures Within(v, allowed) <==> forall pos: Position :: At(v, pos).Some? ==> |pos| <= allowed
    decreases Size(v)
  {
    WithinChildren(v, allowed);
    forall i | 0 <= i < |Children(v)|
      ensures Within(Children(v)[i], allowed - 1) <==>
              forall pos: Position :: At(Children(v)[i], pos).Some? ==> |pos| <= allowed - 1
    {
      ChildIsSmaller(v, i);
      WithinIsDepth(Children(v)[i], allowed - 1);
    }
    if Within(v, allowed) {
      forall pos: Position | At(v, pos).Some? ensures |pos| <= allowed {
        if pos != [] {
          AtChild(v, pos);
          assert At(Children(v)[pos[0]], pos[1..]).Some?;
        }
      }
    }
    if forall pos: Position :: At(v, pos).Some? ==> |pos| <= allowed {
      assert At(v, []).Some?;
      forall i | 0 <= i < |Children(v)| ensures Within(Children(v)[i], allowed - 1) {
        forall pos: Position | At(Children(v)[i], pos).Some? ensures |pos| <= allowed - 1 {
          AtChild(v, [i] + pos);
          assert ([i] + pos)[1..] == pos && At(v, [i] + pos).Some?;
        }
      }
    }
  }

  // ---------------------------------------------------------------- counting

  /** Every position in a value, the parent before its children. */
  function Positions(v: Value): seq<Position>
    decreases Size(v), 0
  {
    [[]] + PositionsFrom(v, 0)
  }

  /** The positions below the children from the i-th on. */
  function PositionsFrom(v: Value, i: nat): seq<Position>
    requires i <= |Children(v)|
    decreases Size(v), 0, |Children(v)| - i
  {
    if i == |Children(v)| then []
    else
      ChildIsSmaller(v, i);
      Under(i, Positions(Children(v)[i])) + PositionsFrom(v, i + 1)
  }

  function Under(i: nat, ps: seq<Position>): (r: seq<Position>)
    ensures |r| == |ps| && forall k :: 0 <= k < |r| ==> r[k] == [i] + ps[k]
  {
    seq(|ps|, k requires 0 <= k < |ps| => [i] + ps[k])
  }

  function NodesFrom(v: Value, i: nat): nat
    requires i <= |Children(v)|
  {
    match v
    case Obj(fields) => NodesOfFields(fields[i..])
    case Arr(items) => NodesOfItems(items[i..])
    case _ => 0
  }

  lemma NodesStep(v: Value, i: nat)
    requires i < |Children(v)|
    ensures NodesFrom(v, i) == Nodes(Children(v)[i]) + NodesFrom(v, i + 1)
  {
    match v
    case Obj(fields) => assert fields[i..][1..] == fields[i + 1..];
    case Arr(items) => assert items[i..][1..] == items[i + 1..];
  }

  lemma NodesWhole(v: Value)
    ensures Nodes(v) == 1 + NodesFrom(v, 0)
  {
    match v
    case Obj(fields) => assert fields[0..] == fields;
    case Arr(items) => assert items[0..] == items;
    case _ =>
  }

  lemma {:induction false} PositionsCount(v: Value)
    ensures |Positions(v)| == Nodes(v)
    decreases Size(v), 1, 0
  {
    NodesWhole(v);
    PositionsFromCount(v, 0);
  }

  lemma {:induction false} PositionsStep(v: Value, i: nat)
    requires i < |Children(v)|
    ensures |PositionsFrom(v, i)| == |Positions(Children(v)[i])| + |PositionsFrom(v, i + 1)|
  {
    ChildIsSmaller(v, i);
  }

  lemma {:induction false} PositionsFromCount(v: Value, i: nat)
    requires i <= |Children(v)|
    ensures |PositionsFrom(v, i)| == NodesFrom(v, i)
    decreases Size(v), 0, |Children(v)| - i
  {
    if i < |Children(v)| {
      ChildIsSmaller(v, i);
      PositionsCount(Children(v)[i]);
      PositionsStep(v, i);
      NodesStep(v, i);
      PositionsFromCount(v, i + 1);
    }
  }

  lemma {:induction false} PositionsAre(v: Value, pos: Position)
    ensures pos in Positions(v) <==> At(v, pos).Some?
    decreases Size(v), 1, 0
  {
    PositionsFromAre(v, 0, pos);
    if pos != [] {
      AtChild(v, pos);
    }
  }

  lemma {:induction false} PositionsFromAre(v: Value, i: nat, pos: Position)
    requires i <= |Children(v)|
    ensures pos in PositionsFrom(v, i) <==>
            pos != [] && i <= pos[0] < |Children(v)| && At(Children(v)[pos[0]], pos[1..]).Some?
    decreases Size(v), 0, |Children(v)| - i
  {
    if i < |Children(v)| {
      ChildIsSmaller(v, i);
      PositionsFromAre(v, i + 1, pos);
      var inner := Positions(Children(v)[i]);
      if pos in Under(i, inner) {
        var k :| 0 <= k < |inner| && Under(i, inner)[k] == pos;
        assert pos[1..] == inner[k] && inner[k] in inner;
        PositionsAre(Children(v)[i], inner[k]);
      }
      if pos != [] && pos[0] == i {
        PositionsAre(Children(v)[i], pos[1..]);
        if pos[1..] in inner {
          var k :| 0 <= k < |inner| && inner[k] == pos[1..];
          assert pos == [i] + pos[1..] && Under(i, inner)[k] == pos;
        }
      }
    }
  }

  ghost predicate Distinct<T>(s: seq<T>) { forall i, j :: 0 <= i < j < |s| ==> s[i] != s[j] }

  lemma ConcatDistinct<T>(a: seq<T>, b: seq<T>)
    requires Distinct(a) && Distinct(b) && forall x :: x in a ==> x !in b
    ensures Distinct(a + b)
  {
    forall i, j | 0 <= i < j < |a + b| ensures (a + b)[i] != (a + b)[j] {
      if i < |a| && |a| <= j {
        assert a[i] in a && b[j - |a|] in b;
      }
    }
  }

  lemma {:induction false} PositionsDistinct(v: Value)
    ensures Distinct(Positions(v))
    decreases Size(v), 1, 0
  {
    PositionsFromDistinct(v, 0);
    PositionsFromAre(v, 0, []);
    ConcatDistinct([[]], PositionsFrom(v, 0));
  }

  lemma {:induction false} PositionsFromDistinct(v: Value, i: nat)
    requires i <= |Children(v)|
    ensures Distinct(PositionsFrom(v, i))
    decreases Size(v), 0, |Children(v)| - i
  {
    if i < |Children(v)| {
      ChildIsSmaller(v, i);
      PositionsFromDistinct(v, i + 1);
      var inner := Positions(Children(v)[i]);
      PositionsDistinct(Children(v)[i]);
      UnderDistinct(i, inner);
      forall x | x in Under(i, inner) ensures x !in PositionsFrom(v, i + 1) {
        PositionsFromAre(v, i + 1, x);
      }
      ConcatDistinct(Under(i, inner), PositionsFrom(v, i + 1));
    }
  }

  lemma UnderDistinct(i: nat, ps: seq<Position>)
    requires Distinct(ps)
    ensures Distinct(Under(i, ps))
  {
    forall j, k | 0 <= j < k < |ps| ensures Under(i, ps)[j] != Under(i, ps)[k] {
      assert Under(i, ps)[j][1..] == ps[j] && Under(i, ps)[k][1..] == ps[k];
    }
  }

  /** The number of nodes is the number of positions: each is in the list, once. */
  lemma NodesArePositions(v: Value) returns (all: seq<Position>)
    ensures |all| == Nodes(v) && Distinct(all)
    ensures forall pos: Position :: pos in all <==> At(v, pos).Some?
  {
    all := Positions(v);
    PositionsCount(v);
    PositionsDistinct(v);
    forall pos: Position ensures pos in all <==> At(v, pos).Some? {
      PositionsAre(v, pos);
    }
  }

  // ---------------------------------------------------------------- the text of an index

  predicate AllDigits(s: string) { forall i :: 0 <= i < |s| ==> '0' <= s[i] <= '9' }

  /** The number that a text of decimal digits denotes. */
  function Denotes(s: string): int
    requires AllDigits(s)
  {
    if s == "" then 0
    else
      var n := |s| - 1;
      10 * Denotes(s[..n]) + (s[n] as int - '0' as int)
  }

  /** An index is written in decimal digits that denote it, without a leading zero. */
  lemma {:induction false} DecimalDenotes(n: nat)
    ensures AllDigits(Decimal(n)) && Denotes(Decimal(n)) == n
    ensures Decimal(n) != "" && (n >= 10 ==> Decimal(n)[0] != '0')
  {
    var digits := "0123456789";
    assert forall d :: 0 <= d < 10 ==> digits[d] as int == '0' as int + d;
    if n >= 10 {
      DecimalDenotes(n / 10);
      var front := Decimal(n / 10);
      assert Decimal(n)[..|front|] == front;
      if n / 10 < 10 {
        assert front == [digits[n / 10]];
      }
    } else {
      assert Decimal(n)[..0] == "";
    }
  }
}
