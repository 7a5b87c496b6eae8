/** A JSON reader for canonical texts, and the proof that it undoes the printer. */
module CanonicalJsonReader {
  import opened Order
  import opened Wrappers
  import opened JsonValue
  import opened CanonicalJson

  /** What was read from the front of a text, and the text behind it. */
  datatype Parsed<+V> = Fail | Got(val: V, rest: Text)

  // ---------------------------------------------------------------- reader

  function HexValue(c: CodePoint): Option<int> {
    if 0x30 <= c <= 0x39 then Some(c - 0x30)
    else if 0x61 <= c <= 0x66 then Some(c - 0x57)
    else if 0x41 <= c <= 0x46 then Some(c - 0x37)
    else None
  }

  /** The part of an escape behind the backslash. */
  function ParseEscape(t: Text): (r: Parsed<CodePoint>)
    ensures r.Got? ==> |r.rest| < |t|
  {
    if t == [] then Fail
    else if t[0] == QUOTE || t[0] == BACKSLASH || t[0] == 0x2F then Got(t[0], t[1..])
    else if t[0] == 0x62 then Got(8, t[1..])
    else if t[0] == 0x66 then Got(12, t[1..])
    else if t[0] == 0x6E then Got(10, t[1..])
    else if t[0] == 0x72 then Got(13, t[1..])
    else if t[0] == 0x74 then Got(9, t[1..])
    else if t[0] == 0x75 && |t| >= 5 then
      match (HexValue(t[1]), HexValue(t[2]), HexValue(t[3]), HexValue(t[4]))
      case (Some(a), Some(b), Some(c), Some(d)) =>
        var unit := 4096 * a + 256 * b + 16 * c + d;
        if 0 <= unit < 0xD800 || 0xE000 <= unit <= 0xFFFF then Got(unit, t[5..]) else Fail
      case _ => Fail
    else Fail
  }

  /** The characters of a string up to and including its closing quote. */
  function ParseChars(t: Text): (r: Parsed<Text>)
    ensures r.Got? ==> |r.rest| < |t|
    decreases |t|
  {
    if t == [] || t[0] < 0x20 || IsSurrogate(t[0]) then Fail
    else if t[0] == QUOTE then Got([], t[1..])
    else
      match (if t[0] == BACKSLASH then ParseEscape(t[1..]) else Got(t[0], t[1..]))
      case Fail => Fail
      case Got(c, rest) =>
        match ParseChars(rest)
        case Fail => Fail
        case Got(s, rest') => Got([c] + s, rest')
  }

  predicate IsDigit(c: CodePoint) { 0x30 <= c <= 0x39 }

  function ParseDigits(t: Text, acc: nat): (nat, Text) {
    if t != [] && IsDigit(t[0]) then ParseDigits(t[1..], 10 * acc + (t[0] - 0x30)) else (acc, t)
  }

  lemma {:induction false} ParseDigitsShrinks(t: Text, acc: nat)
    ensures |ParseDigits(t, acc).1| <= |t|
    ensures t != [] && IsDigit(t[0]) ==> |ParseDigits(t, acc).1| < |t|
  {
    if t != [] && IsDigit(t[0]) {
      ParseDigitsShrinks(t[1..], 10 * acc + (t[0] - 0x30));
    }
  }

  function ParseInt(t: Text): (r: Parsed<Value>)
    ensures r.Got? ==> |r.rest| < |t|
  {
    var negative := t != [] && t[0] == 0x2D;
    var digits := if negative then t[1..] else t;
    if digits == [] || !IsDigit(digits[0]) then Fail
    else
      ParseDigitsShrinks(digits, 0);
      var (n, rest) := ParseDigits(digits, 0);
      var value: int := n;
      Got(Int(if negative then -value else value), rest)
  }

  function ParseValue(t: Text): (r: Parsed<Value>)
    ensures r.Got? ==> |r.rest| < |t|
    decreases |t|, 0
  {
    if t == [] then Fail
    else if NULL_TEXT <= t then Got(Null, t[4..])
    else if TRUE_TEXT <= t then Got(Bool(true), t[4..])
    else if FALSE_TEXT <= t then Got(Bool(false), t[5..])
    else if t[0] == QUOTE then
      match ParseChars(t[1..])
      case Fail => Fail
      case Got(s, rest) => Got(Str(s), rest)
    else if t[0] == 0x5B then
      if |t| > 1 && t[1] == 0x5D then Got(Arr([]), t[2..])
      else
        match ParseItems(t[1..])
        case Fail => Fail
        case Got(items, rest) => Got(Arr(items), rest)
    else if t[0] == 0x7B then
      if |t| > 1 && t[1] == 0x7D then Got(Obj([]), t[2..])
      else
        match ParseFields(t[1..])
        case Fail => Fail
        case Got(fields, rest) => Got(Obj(fields), rest)
    else ParseInt(t)
  }

  /** One or more elements up to and including the closing bracket. */
  function ParseItems(t: Text): (r: Parsed<seq<Value>>)
    ensures r.Got? ==> |r.rest| < |t|
    decreases |t|, 1
  {
    match ParseValue(t)
    case Fail => Fail
    case Got(v, rest) =>
      if rest == [] then Fail
      else if rest[0] == 0x5D then Got([v], rest[1..])
      else if rest[0] == 0x2C then
        match ParseItems(rest[1..])
        case Fail => Fail
        case Got(vs, rest') => Got([v] + vs, rest')
      else Fail
  }

  /** One or more fields up to and including the closing brace. */
  function ParseFields(t: Text): (r: Parsed<seq<Field<Text>>>)
    ensures r.Got? ==> |r.rest| < |t|
    decreases |t|, 1
  {
    if t == [] || t[0] != QUOTE then Fail
    else
      match ParseChars(t[1..])
      case Fail => Fail
      case Got(key, afterKey) =>
        if afterKey == [] || afterKey[0] != 0x3A then Fail
        else
          match ParseValue(afterKey[1..])
          case Fail => Fail
          case Got(v, rest) =>
            if rest == [] then Fail
            else if rest[0] == 0x7D then Got([Field(key, v)], rest[1..])
            else if rest[0] == 0x2C then
              match ParseFields(rest[1..])
              case Fail => Fail
              case Got(fs, rest') => Got([Field(key, v)] + fs, rest')
            else Fail
  }

  /** A whole document. */
  function Parse(t: Text): Option<Value> {
    match ParseValue(t)
    case Fail => None
    case Got(v, rest) => if rest == [] then Some(v) else None
  }

  // ---------------------------------------------------------------- normal form

  /** The value with the fields of every object in key order; nothing else about it changes. */
  function Normal(v: Value): Value
    decreases v
  {
    match v
    case Arr(items) => Arr(NormalItems(items))
    case Obj(fields) => Obj(SortBy(FieldBefore, NormalFields(fields)))
    case _ => v
  }

  function NormalItems(items: seq<Value>): seq<Value>
    decreases items
  {
    if items == [] then [] else [Normal(items[0])] + NormalItems(items[1..])
  }

  function NormalField(f: Field<Text>): Field<Text>
    decreases f
  {
    Field(f.key, Normal(f.val))
  }

  function NormalFields(fields: seq<Field<Text>>): seq<Field<Text>>
    decreases fields
  {
    if fields == [] then [] else [NormalField(fields[0])] + NormalFields(fields[1..])
  }

  lemma {:induction false} NormalInsert(x: Field<Text>, s: seq<Field<Text>>)
    ensures NormalFields(Insert(FieldBefore, x, s)) == Insert(FieldBefore, NormalField(x), NormalFields(s))
  {
    if s != [] {
      if FieldBefore(x, s[0]) {
        assert ([x] + s)[1..] == s;
      } else {
        NormalInsert(x, s[1..]);
        assert ([s[0]] + Insert(FieldBefore, x, s[1..]))[1..] == Insert(FieldBefore, x, s[1..]);
      }
    }
  }

  /** Sorting looks at keys only, so it commutes with normalising the values. */
  lemma {:induction false} NormalSort(s: seq<Field<Text>>)
    ensures NormalFields(SortBy(FieldBefore, s)) == SortBy(FieldBefore, NormalFields(s))
  {
    if s != [] {
      NormalSort(s[1..]);
      NormalInsert(s[0], SortBy(FieldBefore, s[1..]));
      assert NormalFields(s)[1..] == NormalFields(s[1..]);
    }
  }

  // ---------------------------------------------------------------- reading strings and numbers

  lemma ControlEscape(c: CodePoint, t: Text)
    requires c < 0x20
    ensures ParseEscape([0x75, 0x30, 0x30, HexDigit(c / 16), HexDigit(c % 16)] + t) == Got(c, t)
  {
    var u: Text := [0x75, 0x30, 0x30, HexDigit(c / 16), HexDigit(c % 16)] + t;
    assert HexValue(HexDigit(c / 16)) == Some(c / 16) && HexValue(HexDigit(c % 16)) == Some(c % 16);
    assert u[5..] == t;
  }

  /** What the parser makes of the next character, whether plain or escaped. */
  lemma OneChar(u: Text, c: CodePoint, t: Text)
    requires u != [] && u[0] >= 0x20 && !IsSurrogate(u[0]) && u[0] != QUOTE
    requires (if u[0] == BACKSLASH then ParseEscape(u[1..]) else Got(u[0], u[1..])) == Got(c, t)
    ensures ParseChars(u) == match ParseChars(t) case Fail => Fail case Got(s, rest) => Got([c] + s, rest)
  {
  }

  lemma ShortEscape(c: CodePoint, t: Text)
    requires |Escape(c)| == 2
    ensures Escape(c)[0] == BACKSLASH && ParseEscape(Escape(c)[1..] + t) == Got(c, t)
  {
    assert (Escape(c)[1..] + t)[1..] == t;
  }

  lemma EscapeRoundTrip(c: CodePoint, t: Text)
    requires !IsSurrogate(c)
    ensures ParseChars(Escape(c) + t) ==
            match ParseChars(t) case Fail => Fail case Got(s, rest) => Got([c] + s, rest)
  {
    var e, u := Escape(c), Escape(c) + t;
    assert u[1..] == e[1..] + t;
    if |e| == 6 {
      ControlEscape(c, t);
    } else if |e| == 2 {
      ShortEscape(c, t);
      OneChar(u, c, t);
    } else {
      assert u[1..] == t;
      OneChar(u, c, t);
    }
  }

  lemma FrontCut(front: Text, middle: Text, end: Text, rest: Text)
    ensures front + middle + end + rest == front + (middle + end + rest)
  {
  }

  lemma {:induction false} StringRoundTrip(s: Text, rest: Text)
    requires Encodable(s)
    ensures ParseChars(EscapeAll(s) + [QUOTE] + rest) == Got(s, rest)
  {
    if s == [] {
      assert EscapeAll(s) + [QUOTE] + rest == [QUOTE] + rest;
    } else {
      StringRoundTrip(s[1..], rest);
      assert [s[0]] + s[1..] == s;
      EscapeRoundTrip(s[0], EscapeAll(s[1..]) + [QUOTE] + rest);
      FrontCut(Escape(s[0]), EscapeAll(s[1..]), [QUOTE], rest);
    }
  }

  lemma {:induction false} DigitsRoundTrip(n: nat, rest: Text)
    ensures ParseDigits(Digits(n) + rest, 0) == ParseDigits(rest, n)
    ensures Digits(n) != [] && IsDigit(Digits(n)[0])
  {
    if n < 10 {
      assert (Digits(n) + rest)[1..] == rest;
    } else {
      var last: Text := [0x30 + n % 10];
      DigitsRoundTrip(n / 10, last + rest);
      assert Digits(n) + rest == Digits(n / 10) + (last + rest);
      assert (last + rest)[1..] == rest;
    }
  }

  predicate NoDigit(t: Text) { t == [] || !IsDigit(t[0]) }

  lemma IntRoundTrip(n: int, rest: Text)
    requires PrintInt(n).Ok? && NoDigit(rest)
    ensures ParseValue(PrintInt(n).value + rest) == Got(Int(n), rest)
    ensures PrintInt(n).value != [] && PrintInt(n).value[0] != 0x5D
  {
    var digits := Digits(if n < 0 then -n else n);
    DigitsRoundTrip(if n < 0 then -n else n, rest);
    var t := PrintInt(n).value + rest;
    if n < 0 {
      assert t[1..] == digits + rest;
    } else {
      assert t == digits + rest;
    }
    assert ParseValue(t) == ParseInt(t);
  }

  // ---------------------------------------------------------------- reading brackets and separators

  lemma ReadArray(inner: Text, items: seq<Value>, rest: Text)
    requires if inner == [] then items == []
             else inner[0] != 0x5D && ParseItems(inner + [0x5D] + rest) == Got(items, rest)
    ensures ParseValue([0x5B] + inner + [0x5D] + rest) == Got(Arr(items), rest)
  {
    var t := [0x5B] + inner + [0x5D] + rest;
    assert t[1..] == inner + [0x5D] + rest;
    if inner == [] {
      assert t[2..] == rest;
    } else {
      assert t[1] == inner[0];
    }
  }

  lemma ReadObject(inner: Text, fields: seq<Field<Text>>, rest: Text)
    requires if inner == [] then fields == []
             else inner[0] != 0x7D && ParseFields(inner + [0x7D] + rest) == Got(fields, rest)
    ensures ParseValue([0x7B] + inner + [0x7D] + rest) == Got(Obj(fields), rest)
  {
    var t := [0x7B] + inner + [0x7D] + rest;
    assert t[1..] == inner + [0x7D] + rest;
    if inner == [] {
      assert t[2..] == rest;
    } else {
      assert t[1] == inner[0];
    }
  }

  lemma ReadItem(t: Text, v: Value, behind: Text)
    requires ParseValue(t) == Got(v, behind) && behind != []
    ensures ParseItems(t) ==
            if behind[0] == 0x5D then Got([v], behind[1..])
            else if behind[0] != 0x2C then Fail
            else match ParseItems(behind[1..])
                 case Fail => Fail
                 case Got(vs, rest) => Got([v] + vs, rest)
  {
  }

  lemma ReadField(t: Text, key: Text, afterKey: Text, v: Value, behind: Text)
    requires t != [] && t[0] == QUOTE && ParseChars(t[1..]) == Got(key, afterKey)
    requires afterKey != [] && afterKey[0] == 0x3A && ParseValue(afterKey[1..]) == Got(v, behind)
    requires behind != []
    ensures ParseFields(t) ==
            if behind[0] == 0x7D then Got([Field(key, v)], behind[1..])
            else if behind[0] != 0x2C then Fail
            else match ParseFields(behind[1..])
                 case Fail => Fail
                 case Got(fs, rest) => Got([Field(key, v)] + fs, rest)
  {
  }

  lemma ItemsCut(first: Text, tail: Text, behind: Text, rest: Text)
    requires behind == if tail == [] then [0x5D] + rest else [0x2C] + (tail + [0x5D] + rest)
    ensures behind[1..] == if tail == [] then rest else tail + [0x5D] + rest
    ensures first + (if tail == [] then [] else [0x2C] + tail) + [0x5D] + rest == first + behind
  {
  }

  /** A first element in front of the text of the others, or of none. */
  lemma ItemsStep(first: Text, tail: Text, v: Value, vs: seq<Value>, behind: Text, rest: Text)
    requires ParseValue(first + behind) == Got(v, behind)
    requires tail == [] ==> behind == [0x5D] + rest && vs == []
    requires tail != [] ==>
               behind == [0x2C] + (tail + [0x5D] + rest) && ParseItems(tail + [0x5D] + rest) == Got(vs, rest)
    ensures ParseItems(first + (if tail == [] then [] else [0x2C] + tail) + [0x5D] + rest) == Got([v] + vs, rest)
  {
    ItemsCut(first, tail, behind, rest);
    assert [v] + [] == [v];
    ReadItem(first + behind, v, behind);
  }

  lemma FieldCut(e: Text, val: Text, sep: Text, rest: Text)
    ensures var t := [QUOTE] + e + [QUOTE] + [0x3A] + val + sep + [0x7D] + rest;
            && t[1..] == e + [QUOTE] + ([0x3A] + (val + (sep + [0x7D] + rest)))
            && ([0x3A] + (val + (sep + [0x7D] + rest)))[1..] == val + (sep + [0x7D] + rest)
  {
  }

  /** What the reader finds at the front of a printed field. */
  lemma FieldFront(key: Text, val: Text, sep: Text, rest: Text, behind: Text) returns (t: Text, afterKey: Text)
    requires PrintString(key).Ok? && behind == sep + [0x7D] + rest
    ensures t == PrintString(key).value + [0x3A] + val + sep + [0x7D] + rest
    ensures t != [] && t[0] == QUOTE && ParseChars(t[1..]) == Got(key, afterKey)
    ensures afterKey != [] && afterKey[0] == 0x3A && afterKey[1..] == val + behind
  {
    t := [QUOTE] + EscapeAll(key) + [QUOTE] + [0x3A] + val + sep + [0x7D] + rest;
    afterKey := [0x3A] + (val + behind);
    StringRoundTrip(key, afterKey);
    FieldCut(EscapeAll(key), val, sep, rest);
  }

  lemma FieldsStep(t: Text, key: Text, afterKey: Text, tail: Text, v: Value, fs: seq<Field<Text>>, behind: Text,
                   rest: Text)
    requires t != [] && t[0] == QUOTE && ParseChars(t[1..]) == Got(key, afterKey)
    requires afterKey != [] && afterKey[0] == 0x3A && ParseValue(afterKey[1..]) == Got(v, behind)
    requires tail == [] ==> behind == [0x7D] + rest && fs == []
    requires tail != [] ==>
               behind == [0x2C] + (tail + [0x7D] + rest) && ParseFields(tail + [0x7D] + rest) == Got(fs, rest)
    ensures ParseFields(t) == Got([Field(key, v)] + fs, rest)
  {
    assert behind[1..] == if tail == [] then rest else tail + [0x7D] + rest;
    assert [Field(key, v)] + [] == [Field(key, v)];
    ReadField(t, key, afterKey, v, behind);
  }

  lemma SeparatorCut(tail: Text, sep: Text, rest: Text, behind: Text)
    requires behind == sep + [0x7D] + rest
    requires sep == if tail == [] then [] else [0x2C] + tail
    ensures behind == if tail == [] then [0x7D] + rest else [0x2C] + (tail + [0x7D] + rest)
  {
  }

  /** A first field in front of the text of the others, or of none. */
  lemma FieldsJoin(key: Text, val: Text, tail: Text, v: Value, fs: seq<Field<Text>>, sep: Text, rest: Text,
                   behind: Text)
    requires PrintString(key).Ok? && behind == sep + [0x7D] + rest
    requires ParseValue(val + behind) == Got(v, behind)
    requires tail == [] ==> sep == [] && fs == []
    requires tail != [] ==> sep == [0x2C] + tail && ParseFields(tail + [0x7D] + rest) == Got(fs, rest)
    ensures ParseFields(PrintString(key).value + [0x3A] + val + sep + [0x7D] + rest) == Got([Field(key, v)] + fs, rest)
  {
    var t, afterKey := FieldFront(key, val, sep, rest, behind);
    SeparatorCut(tail, sep, rest, behind);
    FieldsStep(t, key, afterKey, tail, v, fs, behind, rest);
  }

  // ---------------------------------------------------------------- the reader undoes the printer

  lemma NullRoundTrip(rest: Text)
    ensures ParseValue(NULL_TEXT + rest) == Got(Null, rest)
  {
    var t := NULL_TEXT + rest;
    assert NULL_TEXT <= t && t[4..] == rest;
  }

  lemma TrueRoundTrip(rest: Text)
    ensures ParseValue(TRUE_TEXT + rest) == Got(Bool(true), rest)
  {
    var t := TRUE_TEXT + rest;
    assert NULL_TEXT[0] != TRUE_TEXT[0] == t[0];
    assert TRUE_TEXT <= t && t[4..] == rest;
  }

  lemma FalseRoundTrip(rest: Text)
    ensures ParseValue(FALSE_TEXT + rest) == Got(Bool(false), rest)
  {
    var t := FALSE_TEXT + rest;
    assert NULL_TEXT[0] != FALSE_TEXT[0] == t[0] && TRUE_TEXT[0] != t[0];
    assert FALSE_TEXT <= t && t[5..] == rest;
  }

  lemma ReadString(t: Text, s: Text, rest: Text)
    requires t != [] && t[0] == QUOTE && ParseChars(t[1..]) == Got(s, rest)
    ensures ParseValue(t) == Got(Str(s), rest)
  {
  }

  lemma StrRoundTrip(s: Text, rest: Text)
    requires PrintString(s).Ok?
    ensures ParseValue(PrintString(s).value + rest) == Got(Str(s), rest)
  {
    var t := PrintString(s).value + rest;
    StringRoundTrip(s, rest);
    assert t[1..] == EscapeAll(s) + [QUOTE] + rest;
    ReadString(t, s, rest);
  }

  lemma ScalarRoundTrip(v: Value, depth: nat, rest: Text)
    requires !v.Arr? && !v.Obj?
    requires Canonical(v, depth).Ok? && NoDigit(rest)
    ensures var t := Canonical(v, depth).value;
            t != [] && t[0] != 0x5D && ParseValue(t + rest) == Got(v, rest)
  {
    match v
    case Null => NullRoundTrip(rest);
    case Bool(b) =>
      if b {
        TrueRoundTrip(rest);
      } else {
        FalseRoundTrip(rest);
      }
    case Int(n) => IntRoundTrip(n, rest);
    case Str(s) => StrRoundTrip(s, rest);
  }

  /** In front of anything that does not continue a number, a printed value reads back in normal form. */
  lemma {:induction false} ValueRoundTrip(v: Value, depth: nat, rest: Text)
    requires Canonical(v, depth).Ok? && NoDigit(rest)
    ensures var t := Canonical(v, depth).value;
            t != [] && t[0] != 0x5D && ParseValue(t + rest) == Got(Normal(v), rest)
    decreases Size(v), 0
  {
    match v
    case Null => ScalarRoundTrip(v, depth, rest);
    case Bool(b) => ScalarRoundTrip(v, depth, rest);
    case Int(n) => ScalarRoundTrip(v, depth, rest);
    case Str(s) => ScalarRoundTrip(v, depth, rest);
    case Arr(items) =>
      if items != [] {
        ItemsRoundTrip(items, depth + 1, rest);
      }
      ReadArray(PrintItems(items, depth + 1).value, NormalItems(items), rest);
    case Obj(fields) =>
      var sorted := SortBy(FieldBefore, fields);
      SortKeepsSize(fields);
      SortMembers(FieldBefore, fields);
      NormalSort(fields);
      if sorted != [] {
        FieldsRoundTrip(sorted, depth + 1, rest);
      }
      ReadObject(PrintFields(sorted, depth + 1).value, NormalFields(sorted), rest);
  }

  lemma {:induction false} ItemsRoundTrip(items: seq<Value>, depth: nat, rest: Text)
    requires items != [] && PrintItems(items, depth).Ok?
    ensures var t := PrintItems(items, depth).value;
            t != [] && t[0] != 0x5D && ParseItems(t + [0x5D] + rest) == Got(NormalItems(items), rest)
    decreases SizeItems(items), 1
  {
    var tail := PrintItems(items[1..], depth).value;
    if |items| > 1 {
      ItemsRoundTrip(items[1..], depth, rest);
    }
    var behind := if |items| == 1 then [0x5D] + rest else [0x2C] + (tail + [0x5D] + rest);
    ValueRoundTrip(items[0], depth, behind);
    ItemsStep(Canonical(items[0], depth).value, tail, Normal(items[0]), NormalItems(items[1..]), behind, rest);
  }

  lemma {:induction false} FieldsRoundTrip(fields: seq<Field<Text>>, depth: nat, rest: Text)
    requires fields != [] && PrintFields(fields, depth).Ok?
    ensures var t := PrintFields(fields, depth).value;
            t != [] && t[0] != 0x7D && ParseFields(t + [0x7D] + rest) == Got(NormalFields(fields), rest)
    decreases SizeFields(fields), 1
  {
    assert SizeField(fields[0]) == 1 + Size(fields[0].val);
    var f, tail := fields[0], PrintFields(fields[1..], depth).value;
    if |fields| > 1 {
      FieldsRoundTrip(fields[1..], depth, rest);
    }
    var sep := if |fields| == 1 then [] else [0x2C] + tail;
    var behind := sep + [0x7D] + rest;
    ValueRoundTrip(f.val, depth, behind);
    FieldsJoin(f.key, Canonical(f.val, depth).value, tail, Normal(f.val), NormalFields(fields[1..]), sep, rest, behind);
  }

  /** Reading a canonical text gives the printed value back, up to the order of object fields. */
  lemma RoundTrip(v: Value)
    requires Print(v).Ok?
    ensures Parse(Print(v).value) == Some(Normal(v))
  {
    ValueRoundTrip(v, 0, []);
    assert Print(v).value + [] == Print(v).value;
  }
}
