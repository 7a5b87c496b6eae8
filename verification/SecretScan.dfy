/** The bounds check and the capped scan for secret-like fields over an untrusted JSON profile. */
module SecretScan {
  import opened Wrappers
  import opened JsonValue

  type Value = Json<string>

  type Member = Field<string>

  /** The name and value patterns of a secret. */
  datatype Patterns = Patterns(name: string -> bool, text: string -> bool)

  datatype ProfileError = TooDeep | TooManyNodes | TooManySecrets | SecretsRefused

  const MAX_SECRETS := 64

  // ---------------------------------------------------------------- bounds

  function Nodes(v: Value): nat
    decreases Size(v), 0
  {
    match v
    case Arr(items) => 1 + NodesOfItems(items)
    case Obj(fields) => 1 + NodesOfFields(fields)
    case _ => 1
  }

  function NodesOfItems(items: seq<Value>): nat
    decreases SizeItems(items), 1
  {
    if items == [] then 0 else Nodes(items[0]) + NodesOfItems(items[1..])
  }

  function NodesOfFields(fields: seq<Member>): nat
    decreases SizeFields(fields), 1
  {
    if fields == [] then 0 else
      assert SizeField(fields[0]) == 1 + Size(fields[0].val);
      Nodes(fields[0].val) + NodesOfFields(fields[1..])
  }

  /** No node lies deeper than allowed levels below v. */
  predicate Within(v: Value, allowed: int)
    decreases Size(v), 0
  {
    allowed >= 0 &&
    match v
    case Arr(items) => ItemsWithin(items, allowed - 1)
    case Obj(fields) => FieldsWithin(fields, allowed - 1)
    case _ => true
  }

  predicate ItemsWithin(items: seq<Value>, allowed: int)
    decreases SizeItems(items), 1
  {
    items == [] || (Within(items[0], allowed) && ItemsWithin(items[1..], allowed))
  }

  predicate FieldsWithin(fields: seq<Member>, allowed: int)
    decreases SizeFields(fields), 1
  {
    fields == [] || (
      assert SizeField(fields[0]) == 1 + Size(fields[0].val);
      Within(fields[0].val, allowed) && FieldsWithin(fields[1..], allowed))
  }

  class BoundsCheck {
    const maxDepth: int
    const maxNodes: int
    var count: int

    constructor (maxDepth: int, maxNodes: int)
      ensures count == 0 && this.maxDepth == maxDepth && this.maxNodes == maxNodes
    {
      this.maxDepth, this.maxNodes, count := maxDepth, maxNodes, 0;
    }

    /** Passes exactly the values that are shallow enough and leave the node count within its limit. */
    method Walk(v: Value, depth: int) returns (ok: bool)
      requires count <= maxNodes || maxNodes < 0
      modifies this
      ensures ok <==> Within(v, maxDepth - depth) && old(count) + Nodes(v) <= maxNodes
      ensures ok ==> count == old(count) + Nodes(v)
      decreases Size(v)
    {
      if depth > maxDepth {
        return false;
      }
      count := count + 1;
      if count > maxNodes {
        return false;
      }
      match v {
        case Obj(fields) =>
          var i := 0;
          while i < |fields|
            invariant i <= |fields| && count <= maxNodes
            invariant old(count) + Nodes(v) == count + NodesOfFields(fields[i..])
            invariant FieldsWithin(fields, maxDepth - depth - 1) <==> FieldsWithin(fields[i..], maxDepth - depth - 1)
          {
            SizeOfMember(fields, i);
            assert fields[i..][1..] == fields[i + 1..];
            ok := Walk(fields[i].val, depth + 1);
            if !ok {
              return;
            }
            i := i + 1;
          }
        case Arr(items) =>
          var i := 0;
          while i < |items|
            invariant i <= |items| && count <= maxNodes
            invariant old(count) + Nodes(v) == count + NodesOfItems(items[i..])
            invariant ItemsWithin(items, maxDepth - depth - 1) <==> ItemsWithin(items[i..], maxDepth - depth - 1)
          {
            SizeOfItem(items, i);
            assert items[i..][1..] == items[i + 1..];
            ok := Walk(items[i], depth + 1);
            if !ok {
              return;
            }
            i := i + 1;
          }
        case _ =>
      }
      return true;
    }
  }

  lemma {:induction false} SizeOfItem(items: seq<Value>, i: nat)
    requires i < |items|
    ensures Size(items[i]) <= SizeItems(items)
  {
    if i > 0 {
      SizeOfItem(items[1..], i - 1);
    }
  }

  lemma {:induction false} SizeOfMember(fields: seq<Member>, i: nat)
    requires i < |fields|
    ensures Size(fields[i].val) < SizeFields(fields)
  {
    assert SizeField(fields[0]) == 1 + Size(fields[0].val);
    if i > 0 {
      SizeOfMember(fields[1..], i - 1);
    }
  }

  // ---------------------------------------------------------------- the scan without a cap

  function Decimal(n: nat): string {
    if n < 10 then ["0123456789"[n]] else Decimal(n / 10) + ["0123456789"[n % 10]]
  }

  /** The path of a member: at the empty path the key stands alone. */
  function Child(path: string, key: string): string {
    if path == "" then key else path + "." + key
  }

  function Element(path: string, i: nat): string { path + "." + Decimal(i) }

  /** A member is flagged for its name whatever it holds, or for the string it holds. */
  predicate Flagged(p: Patterns, f: Member) {
    p.name(f.key) || (f.val.Str? && p.text(f.val.s))
  }

  /** The paths of all flagged members, in document order; a flagged container is not entered. */
  function Scan(p: Patterns, v: Value, path: string): seq<string>
    decreases Size(v), 0
  {
    match v
    case Obj(fields) => ScanFields(p, fields, path)
    case Arr(items) => ScanItems(p, items, 0, path)
    case _ => []
  }

  function ScanField(p: Patterns, f: Member, path: string): seq<string>
    decreases SizeField(f), 0
  {
    if Flagged(p, f) then [Child(path, f.key)] else Scan(p, f.val, Child(path, f.key))
  }

  function ScanFields(p: Patterns, fields: seq<Member>, path: string): seq<string>
    decreases SizeFields(fields), 1
  {
    if fields == [] then [] else ScanField(p, fields[0], path) + ScanFields(p, fields[1..], path)
  }

  function ScanItems(p: Patterns, items: seq<Value>, first: nat, path: string): seq<string>
    decreases SizeItems(items), 1
  {
    if items == [] then [] else Scan(p, items[0], Element(path, first)) + ScanItems(p, items[1..], first + 1, path)
  }

  // ---------------------------------------------------------------- the capped scan

  predicate Visits(v: Value) { (v.Obj? && v.fields != []) || (v.Arr? && v.items != []) }

  /** The last member or element that the scan looks at is itself a finding. */
  predicate EndsInFinding(p: Patterns, v: Value)
    decreases Size(v), 0
  {
    match v
    case Obj(fields) => FieldsEndInFinding(p, fields)
    case Arr(items) => ItemsEndInFinding(p, items)
    case _ => false
  }

  predicate FieldEndsInFinding(p: Patterns, f: Member)
    decreases SizeField(f), 0
  {
    Flagged(p, f) || EndsInFinding(p, f.val)
  }

  predicate FieldsEndInFinding(p: Patterns, fields: seq<Member>)
    decreases SizeFields(fields), 1
  {
    fields != [] && (
      assert SizeField(fields[0]) >= 1;
      if |fields| == 1 then FieldEndsInFinding(p, fields[0]) else FieldsEndInFinding(p, fields[1..]))
  }

  predicate ItemsEndInFinding(p: Patterns, items: seq<Value>)
    decreases SizeItems(items), 1
  {
    items != [] && if |items| == 1 then EndsInFinding(p, items[0]) else ItemsEndInFinding(p, items[1..])
  }

  lemma {:induction false} EndIsFound(p: Patterns, v: Value, path: string)
    requires EndsInFinding(p, v)
    ensures Scan(p, v, path) != []
    decreases Size(v), 1
  {
    match v
    case Obj(fields) => FieldsEndIsFound(p, fields, path);
    case Arr(items) => ItemsEndIsFound(p, items, 0, path);
  }

  lemma {:induction false} FieldsEndIsFound(p: Patterns, fields: seq<Member>, path: string)
    requires FieldsEndInFinding(p, fields)
    ensures ScanFields(p, fields, path) != []
    decreases SizeFields(fields), 2
  {
    assert SizeField(fields[0]) == 1 + Size(fields[0].val);
    if |fields| == 1 {
      if !Flagged(p, fields[0]) {
        EndIsFound(p, fields[0].val, Child(path, fields[0].key));
      }
    } else {
      FieldsEndIsFound(p, fields[1..], path);
    }
  }

  lemma {:induction false} ItemsEndIsFound(p: Patterns, items: seq<Value>, first: nat, path: string)
    requires ItemsEndInFinding(p, items)
    ensures ScanItems(p, items, first, path) != []
    decreases SizeItems(items), 2
  {
    if |items| == 1 {
      EndIsFound(p, items[0], Element(path, first));
    } else {
      ItemsEndIsFound(p, items[1..], first + 1, path);
    }
  }

  /** With n findings in all, something is still to be looked at when the cap is reached: there are more than cap
      findings, or exactly cap and the last thing looked at is not one of them. */
  predicate Overruns(n: nat, cap: nat, visits: bool, endsInFinding: bool) {
    n > cap || (n == cap && visits && !endsInFinding)
  }

  predicate ValueOverruns(p: Patterns, v: Value, path: string, before: nat, cap: nat) {
    Overruns(before + |Scan(p, v, path)|, cap, Visits(v), EndsInFinding(p, v))
  }

  predicate FieldsOverrun(p: Patterns, fields: seq<Member>, path: string, before: nat, cap: nat) {
    Overruns(before + |ScanFields(p, fields, path)|, cap, fields != [], FieldsEndInFinding(p, fields))
  }

  predicate ItemsOverrun(p: Patterns, items: seq<Value>, first: nat, path: string, before: nat, cap: nat) {
    Overruns(before + |ScanItems(p, items, first, path)|, cap, items != [], ItemsEndInFinding(p, items))
  }

  /** One round of the loop over members. */
  lemma FieldsOverrunStep(p: Patterns, fields: seq<Member>, path: string, before: nat, cap: nat)
    requires fields != []
    ensures FieldsOverrun(p, fields, path, before, cap) <==>
            || before >= cap
            || (!Flagged(p, fields[0]) && ValueOverruns(p, fields[0].val, Child(path, fields[0].key), before, cap))
            || FieldsOverrun(p, fields[1..], path, before + |ScanField(p, fields[0], path)|, cap)
  {
    var f, child, rest := fields[0], Child(path, fields[0].key), fields[1..];
    assert ScanFields(p, fields, path) == ScanField(p, f, path) + ScanFields(p, rest, path);
    assert FieldsEndInFinding(p, fields) ==
           if rest == [] then FieldEndsInFinding(p, f) else FieldsEndInFinding(p, rest);
    if FieldsEndInFinding(p, fields) {
      FieldsEndIsFound(p, fields, path);
    }
    if FieldsEndInFinding(p, rest) {
      FieldsEndIsFound(p, rest, path);
    }
    if Flagged(p, f) {
      assert |ScanField(p, f, path)| == 1;
    } else {
      assert ScanField(p, f, path) == Scan(p, f.val, child);
      if EndsInFinding(p, f.val) {
        EndIsFound(p, f.val, child);
      }
      if !Visits(f.val) {
        assert Scan(p, f.val, child) == [];
      }
    }
  }

  /** One round of the loop over elements. */
  lemma ItemsOverrunStep(p: Patterns, items: seq<Value>, first: nat, path: string, before: nat, cap: nat)
    requires items != []
    ensures ItemsOverrun(p, items, first, path, before, cap) <==>
            || before >= cap
            || ValueOverruns(p, items[0], Element(path, first), before, cap)
            || ItemsOverrun(p, items[1..], first + 1, path, before + |Scan(p, items[0], Element(path, first))|, cap)
  {
    if ItemsEndInFinding(p, items) {
      ItemsEndIsFound(p, items, first, path);
    }
    if ItemsEndInFinding(p, items[1..]) {
      ItemsEndIsFound(p, items[1..], first + 1, path);
    }
    if EndsInFinding(p, items[0]) {
      EndIsFound(p, items[0], Element(path, first));
    }
  }

  lemma Shift(found: seq<string>, first: seq<string>, rest: seq<string>)
    ensures found + (first + rest) == (found + first) + rest
  {
  }

  class Scanner {
    const patterns: Patterns
    const cap: nat
    var paths: seq<string>

    constructor (patterns: Patterns, cap: nat)
      ensures paths == [] && this.patterns == patterns && this.cap == cap
    {
      this.patterns, this.cap, paths := patterns, cap, [];
    }

    /** Finds everything below v, unless the cap is reached with something left to look at. */
    method Walk(v: Value, path: string) returns (ok: bool)
      requires |paths| <= cap
      modifies this
      ensures ok <==> !ValueOverruns(patterns, v, path, old(|paths|), cap)
      ensures ok ==> paths == old(paths) + Scan(patterns, v, path) && |paths| <= cap
      decreases Size(v), 0
    {
      match v
      case Obj(fields) => ok := WalkMembers(fields, path);
      case Arr(items) => ok := WalkItems(items, path);
      case _ =>
        ok := true;
        assert paths + [] == paths;
    }

    method WalkMembers(fields: seq<Member>, path: string) returns (ok: bool)
      requires |paths| <= cap
      modifies this
      ensures ok <==> !FieldsOverrun(patterns, fields, path, old(|paths|), cap)
      ensures ok ==> paths == old(paths) + ScanFields(patterns, fields, path) && |paths| <= cap
      decreases SizeFields(fields), 1
    {
      var i := 0;
      while i < |fields|
        invariant i <= |fields| && |paths| <= cap
        invariant old(paths) + ScanFields(patterns, fields, path) == paths + ScanFields(patterns, fields[i..], path)
        invariant FieldsOverrun(patterns, fields, path, old(|paths|), cap) <==>
                  FieldsOverrun(patterns, fields[i..], path, |paths|, cap)
      {
        var key, item := fields[i].key, fields[i].val;
        SizeOfMember(fields, i);
        assert fields[i..][1..] == fields[i + 1..];
        FieldsOverrunStep(patterns, fields[i..], path, |paths|, cap);
        if |paths| >= cap {
          return false;
        }
        var child := if path != "" then path + "." + key else key;
        Shift(paths, ScanField(patterns, fields[i], path), ScanFields(patterns, fields[i + 1..], path));
        if item.Str? && (patterns.name(key) || patterns.text(item.s)) {
          paths := paths + [child];
        } else if !item.Str? && patterns.name(key) {
          paths := paths + [child];
        } else {
          ok := Walk(item, child);
          if !ok {
            return;
          }
        }
        i := i + 1;
      }
      assert paths + [] == paths;
      return true;
    }

    method WalkItems(items: seq<Value>, path: string) returns (ok: bool)
      requires |paths| <= cap
      modifies this
      ensures ok <==> !ItemsOverrun(patterns, items, 0, path, old(|paths|), cap)
      ensures ok ==> paths == old(paths) + ScanItems(patterns, items, 0, path) && |paths| <= cap
      decreases SizeItems(items), 1
    {
      var i := 0;
      while i < |items|
        invariant i <= |items| && |paths| <= cap
        invariant old(paths) + ScanItems(patterns, items, 0, path) == paths + ScanItems(patterns, items[i..], i, path)
        invariant ItemsOverrun(patterns, items, 0, path, old(|paths|), cap) <==>
                  ItemsOverrun(patterns, items[i..], i, path, |paths|, cap)
      {
        SizeOfItem(items, i);
        assert items[i..][1..] == items[i + 1..];
        ItemsOverrunStep(patterns, items[i..], i, path, |paths|, cap);
        if |paths| >= cap {
          return false;
        }
        Shift(paths, Scan(patterns, items[i], Element(path, i)), ScanItems(patterns, items[i + 1..], i + 1, path));
        ok := Walk(items[i], path + "." + Decimal(i));
        if !ok {
          return;
        }
        i := i + 1;
      }
      assert paths + [] == paths;
      return true;
    }
  }

  /** More than 64 findings, or 64 and then something else to look at. */
  predicate TooManyFindings(p: Patterns, v: Value) {
    || |Scan(p, v, "")| > MAX_SECRETS
    || (|Scan(p, v, "")| == MAX_SECRETS && !EndsInFinding(p, v))
  }

  /** Returns exactly what the uncapped scan finds, or raises: exactly when there are more findings than the cap,
      or as many and the last thing looked at is not one of them. */
  method ScanSecrets(p: Patterns, v: Value) returns (result: Result<seq<string>, ProfileError>)
    ensures result == if TooManyFindings(p, v) then Err(TooManySecrets) else Ok(Scan(p, v, ""))
  {
    var scanner := new Scanner(p, MAX_SECRETS);
    var ok := scanner.Walk(v, "");
    assert [] + Scan(p, v, "") == Scan(p, v, "");
    return if ok then Ok(scanner.paths) else Err(TooManySecrets);
  }

  // ---------------------------------------------------------------- what the scan means

  /** Some member inside v, at any depth, is flagged. */
  predicate HasSecret(p: Patterns, v: Value)
    decreases Size(v), 0
  {
    match v
    case Obj(fields) => FieldsHaveSecret(p, fields)
    case Arr(items) => ItemsHaveSecret(p, items)
    case _ => false
  }

  /** The member is flagged itself or has a flagged descendant. */
  predicate Tainted(p: Patterns, f: Member)
    decreases SizeField(f), 0
  {
    Flagged(p, f) || HasSecret(p, f.val)
  }

  predicate FieldsHaveSecret(p: Patterns, fields: seq<Member>)
    decreases SizeFields(fields), 1
  {
    fields != [] && (Tainted(p, fields[0]) || FieldsHaveSecret(p, fields[1..]))
  }

  predicate ItemsHaveSecret(p: Patterns, items: seq<Value>)
    decreases SizeItems(items), 1
  {
    items != [] && (HasSecret(p, items[0]) || ItemsHaveSecret(p, items[1..]))
  }

  /** The scan is empty exactly when nothing is flagged at any depth. */
  lemma {:induction false} ScanFindsSecrets(p: Patterns, v: Value, path: string)
    ensures Scan(p, v, path) == [] <==> !HasSecret(p, v)
    decreases Size(v), 1
  {
    match v
    case Obj(fields) => ScanFieldsFindsSecrets(p, fields, path);
    case Arr(items) => ScanItemsFindsSecrets(p, items, 0, path);
    case _ =>
  }

  lemma {:induction false} ScanFieldFindsSecrets(p: Patterns, f: Member, path: string)
    ensures ScanField(p, f, path) == [] <==> !Tainted(p, f)
    decreases SizeField(f), 1
  {
    ScanFindsSecrets(p, f.val, Child(path, f.key));
  }

  lemma {:induction false} ScanFieldsFindsSecrets(p: Patterns, fields: seq<Member>, path: string)
    ensures ScanFields(p, fields, path) == [] <==> !FieldsHaveSecret(p, fields)
    decreases SizeFields(fields), 2
  {
    if fields != [] {
      ScanFieldFindsSecrets(p, fields[0], path);
      ScanFieldsFindsSecrets(p, fields[1..], path);
    }
  }

  lemma {:induction false} ScanItemsFindsSecrets(p: Patterns, items: seq<Value>, first: nat, path: string)
    ensures ScanItems(p, items, first, path) == [] <==> !ItemsHaveSecret(p, items)
    decreases SizeItems(items), 2
  {
    if items != [] {
      ScanFindsSecrets(p, items[0], Element(path, first));
      ScanItemsFindsSecrets(p, items[1..], first + 1, path);
    }
  }

  /** q lies strictly below path. */
  predicate Below(q: string, path: string) { path + "." <= q }

  lemma BelowChild(q: string, path: string, step: string)
    requires q == path + "." + step || Below(q, path + "." + step)
    ensures Below(q, path)
  {
    var prefix := path + ".";
    assert prefix + step == path + "." + step;
    if q != path + "." + step {
      assert prefix == (path + "." + step + ".")[..|prefix|];
      assert q[..|prefix|] == prefix;
    }
  }

  /** Everything found under a non-empty path lies below it. */
  lemma {:induction false} ScannedBelow(p: Patterns, v: Value, path: string, q: string)
    requires path != "" && q in Scan(p, v, path)
    ensures Below(q, path)
    decreases Size(v), 1
  {
    match v
    case Obj(fields) => ScannedFieldsBelow(p, fields, path, q);
    case Arr(items) => ScannedItemsBelow(p, items, 0, path, q);
    case _ =>
  }

  lemma {:induction false} ScannedFieldsBelow(p: Patterns, fields: seq<Member>, path: string, q: string)
    requires path != "" && q in ScanFields(p, fields, path)
    ensures Below(q, path)
    decreases SizeFields(fields), 2
  {
    if q in ScanField(p, fields[0], path) {
      ScannedFieldAtOrBelow(p, fields[0], path, q);
      BelowChild(q, path, fields[0].key);
    } else {
      assert SizeField(fields[0]) >= 1;
      ScannedFieldsBelow(p, fields[1..], path, q);
    }
  }

  lemma {:induction false} ScannedFieldAtOrBelow(p: Patterns, f: Member, path: string, q: string)
    requires q in ScanField(p, f, path) && Child(path, f.key) != ""
    ensures q == Child(path, f.key) || Below(q, Child(path, f.key))
    decreases SizeField(f), 1
  {
    if !Flagged(p, f) {
      ScannedBelow(p, f.val, Child(path, f.key), q);
    }
  }

  lemma {:induction false} ScannedItemsBelow(p: Patterns, items: seq<Value>, first: nat, path: string, q: string)
    requires q in ScanItems(p, items, first, path)
    ensures Below(q, path)
    decreases SizeItems(items), 2
  {
    if q in Scan(p, items[0], Element(path, first)) {
      ScannedBelow(p, items[0], Element(path, first), q);
      BelowChild(q, path, Decimal(first));
    } else {
      ScannedItemsBelow(p, items[1..], first + 1, path, q);
    }
  }
}
