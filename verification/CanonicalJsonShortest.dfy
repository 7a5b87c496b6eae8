/** The canonical text is fixed character by character: it is the shortest text that reads as the value. */
module CanonicalJsonShortest {
  import opened Order
  import opened Wrappers
  import opened JsonValue
  import opened CanonicalJson
  import opened CanonicalJsonReader
  import opened CanonicalJsonMeaning

  // ---------------------------------------------------------------- texts that read alike

  /** The same text, but that hexadecimal digits may be written in upper case. */
  predicate CaseOf(t: Text, p: Text) {
    |t| == |p| && forall i :: 0 <= i < |t| ==> t[i] == p[i] || (0x41 <= t[i] <= 0x46 && p[i] == t[i] + 0x20)
  }

  /** p is no longer than t, and if it is as long it is t up to the case of hexadecimal digits. */
  predicate Covers(t: Text, p: Text) { |p| <= |t| && (|p| == |t| ==> CaseOf(t, p)) }

  lemma CoversConcat(a: Text, p: Text, b: Text, q: Text)
    requires Covers(a, p) && Covers(b, q)
    ensures Covers(a + b, p + q)
  {
  }

  /** rest is what is left of t behind front. */
  predicate Cut(t: Text, front: Text, rest: Text) { t == front + rest }

  lemma CutTwice(t: Text, a: Text, middle: Text, b: Text, rest: Text)
    requires Cut(t, a, middle) && Cut(middle, b, rest)
    ensures Cut(t, a + b, rest)
  {
  }

  lemma CutFirst(t: Text)
    requires t != []
    ensures Cut(t, t[..1], t[1..]) && t[..1] == [t[0]]
  {
  }

  // ---------------------------------------------------------------- strings

  /** An escape of six characters is used for a control character without one of two, in lower-case digits; every
      other character that must be escaped takes two, and the rest stand for themselves. */
  lemma EscapeForms(c: CodePoint)
    ensures |Escape(c)| == 6 <==> c < 0x20 && c !in {8, 9, 10, 12, 13}
    ensures |Escape(c)| == 2 <==> c in {QUOTE, BACKSLASH, 8, 9, 10, 12, 13}
    ensures |Escape(c)| in {1, 2, 6} && (|Escape(c)| == 1 ==> Escape(c) == [c])
    ensures |Escape(c)| == 6 ==> forall i :: 2 <= i < 6 ==> 0x30 <= Escape(c)[i] <= 0x39 || 0x61 <= Escape(c)[i] <= 0x66
  {
  }

  /** Which escapes the reader knows by a letter. */
  lemma LetterRead(t: Text)
    requires t != [] && ParseEscape(t).Got? && t[0] != 0x75
    ensures ParseEscape(t).rest == t[1..]
    ensures ParseEscape(t).val == t[0] >= 0x20 || (t[0], ParseEscape(t).val) in LETTERS
  {
  }

  const LETTERS := {(0x62, 8), (0x66, 12), (0x6E, 10), (0x72, 13), (0x74, 9)}

  lemma LetterCovered(letter: CodePoint, c: CodePoint)
    requires c == letter >= 0x20 || (letter, c) in LETTERS
    ensures Covers([BACKSLASH, letter], Escape(c))
  {
  }

  /** What the reader makes of four hexadecimal digits. */
  lemma HexRead(t: Text)
    requires t != [] && ParseEscape(t).Got? && t[0] == 0x75
    ensures |t| >= 5 && ParseEscape(t).rest == t[5..]
    ensures HexValue(t[1]).Some? && HexValue(t[2]).Some? && HexValue(t[3]).Some? && HexValue(t[4]).Some?
    ensures ParseEscape(t).val
         == 4096 * HexValue(t[1]).value + 256 * HexValue(t[2]).value + 16 * HexValue(t[3]).value + HexValue(t[4]).value
  {
  }

  lemma LongCovered(w: CodePoint, x: CodePoint, y: CodePoint, z: CodePoint, c: CodePoint)
    requires HexValue(w).Some? && HexValue(x).Some? && HexValue(y).Some? && HexValue(z).Some?
    requires 4096 * HexValue(w).value + 256 * HexValue(x).value + 16 * HexValue(y).value + HexValue(z).value == c
    ensures Covers([BACKSLASH, 0x75, w, x, y, z], Escape(c))
  {
    if |Escape(c)| == 6 {
      HexCovered(w, x, y, z, c);
    }
  }

  /** The escape that the reader met is covered by the one that is printed. */
  lemma EscapeCovered(t: Text, c: CodePoint, rest: Text) returns (front: Text)
    requires t != [] && t[0] == BACKSLASH && ParseEscape(t[1..]) == Got(c, rest)
    ensures Cut(t, front, rest) && Covers(front, Escape(c))
  {
    CutFirst(t);
    var u := t[1..];
    if u[0] == 0x75 {
      HexRead(u);
      LongCovered(u[1], u[2], u[3], u[4], c);
      front := [BACKSLASH, 0x75, u[1], u[2], u[3], u[4]];
    } else {
      LetterRead(u);
      LetterCovered(u[0], c);
      front := [BACKSLASH, u[0]];
    }
  }

  lemma HexCovered(w: CodePoint, x: CodePoint, y: CodePoint, z: CodePoint, c: CodePoint)
    requires HexValue(w).Some? && HexValue(x).Some? && HexValue(y).Some? && HexValue(z).Some? && c < 0x20
    requires 4096 * HexValue(w).value + 256 * HexValue(x).value + 16 * HexValue(y).value + HexValue(z).value == c
    ensures w == 0x30 && x == 0x30 && y == HexDigit(c / 16)
    ensures z == HexDigit(c % 16) || (0x41 <= z <= 0x46 && HexDigit(c % 16) == z + 0x20)
  {
    assert HexValue(w).value == 0 && HexValue(x).value == 0 && HexValue(y).value == c / 16;
  }

  lemma OneCovered(t: Text)
    requires t != [] && t[0] >= 0x20 && t[0] != QUOTE && t[0] != BACKSLASH
    ensures Covers(t[..1], Escape(t[0]))
  {
  }

  /** No text reads as a string but is shorter than the one that is printed, and none as long but that one. */
  lemma {:induction false} StringShortest(t: Text) returns (front: Text)
    requires ParseChars(t).Got?
    ensures Cut(t, front, ParseChars(t).rest) && Covers(front, EscapeAll(ParseChars(t).val) + [QUOTE])
    decreases |t|
  {
    CutFirst(t);
    if t[0] == QUOTE {
      front := t[..1];
      assert EscapeAll([]) + [QUOTE] == front;
    } else {
      var one := if t[0] == BACKSLASH then ParseEscape(t[1..]) else Got(t[0], t[1..]);
      var first := t[..1];
      if t[0] == BACKSLASH {
        first := EscapeCovered(t, one.val, one.rest);
      } else {
        OneCovered(t);
      }
      var s := ParseChars(one.rest).val;
      var others := StringShortest(one.rest);
      front := first + others;
      CutTwice(t, first, one.rest, others, ParseChars(t).rest);
      CoversConcat(first, Escape(one.val), others, EscapeAll(s) + [QUOTE]);
      assert ParseChars(t).val == [one.val] + s && ([one.val] + s)[1..] == s;
      assert Escape(one.val) + (EscapeAll(s) + [QUOTE]) == EscapeAll([one.val] + s) + [QUOTE];
    }
  }

  // ---------------------------------------------------------------- numbers

  /** Behind a number that does not start with zero, further digits are its digits. */
  lemma {:induction false} DigitsGoOn(t: Text, acc: nat) returns (front: Text)
    requires acc > 0
    ensures Cut(t, front, ParseDigits(t, acc).1) && Digits(ParseDigits(t, acc).0) == Digits(acc) + front
    decreases |t|
  {
    if t != [] && IsDigit(t[0]) {
      var d := t[0] - 0x30;
      CutFirst(t);
      assert Digits(10 * acc + d) == Digits(acc) + [t[0]];
      var others := DigitsGoOn(t[1..], 10 * acc + d);
      front := [t[0]] + others;
      CutTwice(t, [t[0]], t[1..], others, ParseDigits(t, acc).1);
      assert (Digits(acc) + [t[0]]) + others == Digits(acc) + front;
    } else {
      front := [];
    }
  }

  lemma {:induction false} DigitsShortest(t: Text) returns (front: Text)
    requires t != [] && IsDigit(t[0])
    ensures Cut(t, front, ParseDigits(t, 0).1) && Covers(front, Digits(ParseDigits(t, 0).0))
    decreases |t|
  {
    var d := t[0] - 0x30;
    CutFirst(t);
    if d > 0 {
      var others := DigitsGoOn(t[1..], d);
      front := [t[0]] + others;
      CutTwice(t, [t[0]], t[1..], others, ParseDigits(t, 0).1);
      assert Digits(d) == [t[0]];
    } else if t[1..] != [] && IsDigit(t[1]) {
      var others := DigitsShortest(t[1..]);
      front := [t[0]] + others;
      CutTwice(t, [t[0]], t[1..], others, ParseDigits(t, 0).1);
    } else {
      front := [t[0]];
      assert Digits(0) == [t[0]];
    }
  }

  lemma IntShortest(t: Text) returns (front: Text)
    requires ParseInt(t).Got? && PrintInt(ParseInt(t).val.n).Ok?
    ensures Cut(t, front, ParseInt(t).rest) && Covers(front, PrintInt(ParseInt(t).val.n).value)
  {
    if t[0] == 0x2D {
      var others := DigitsShortest(t[1..]);
      CutFirst(t);
      front := [t[0]] + others;
      CutTwice(t, [t[0]], t[1..], others, ParseInt(t).rest);
    } else {
      front := DigitsShortest(t);
    }
  }

  // ---------------------------------------------------------------- values

  /** The fields of every object are in key order. */
  predicate InOrder(v: Value)
    decreases Size(v), 0
  {
    match v
    case Arr(items) => ItemsInOrder(items)
    case Obj(fields) => SortBy(FieldBefore, fields) == fields && FieldsInOrder(fields)
    case _ => true
  }

  predicate ItemsInOrder(items: seq<Value>)
    decreases SizeItems(items), 1
  {
    items == [] || (InOrder(items[0]) && ItemsInOrder(items[1..]))
  }

  predicate FieldsInOrder(fields: seq<Field<Text>>)
    decreases SizeFields(fields), 1
  {
    fields == [] || (
      assert SizeField(fields[0]) == 1 + Size(fields[0].val);
      InOrder(fields[0].val) && FieldsInOrder(fields[1..]))
  }

  /** The words are read as they are printed. */
  lemma WordRead(t: Text)
    requires ParseValue(t).Got? && (ParseValue(t).val.Null? || ParseValue(t).val.Bool?)
    ensures Cut(t, Word(ParseValue(t).val), ParseValue(t).rest)
  {
  }

  function Word(v: Value): Text {
    match v
    case Bool(b) => if b then TRUE_TEXT else FALSE_TEXT
    case _ => NULL_TEXT
  }

  lemma TextRead(t: Text)
    requires ParseValue(t).Got? && ParseValue(t).val.Str?
    ensures t != [] && t[0] == QUOTE && ParseChars(t[1..]) == Got(ParseValue(t).val.s, ParseValue(t).rest)
  {
  }

  lemma IntRead(t: Text)
    requires ParseValue(t).Got? && ParseValue(t).val.Int?
    ensures ParseInt(t) == ParseValue(t)
  {
  }

  /** The printed string, closing and opening quote included. */
  lemma QuotedShortest(t: Text) returns (front: Text)
    requires t != [] && t[0] == QUOTE && ParseChars(t[1..]).Got?
    ensures Cut(t, front, ParseChars(t[1..]).rest)
    ensures Covers(front, [QUOTE] + EscapeAll(ParseChars(t[1..]).val) + [QUOTE])
  {
    var inner := StringShortest(t[1..]);
    front := Wrapped(t, inner, EscapeAll(ParseChars(t[1..]).val), QUOTE, ParseChars(t[1..]).rest);
  }

  lemma ScalarShortest(t: Text, depth: nat) returns (front: Text)
    requires ParseValue(t).Got? && !ParseValue(t).val.Arr? && !ParseValue(t).val.Obj?
    requires Canonical(ParseValue(t).val, depth).Ok?
    ensures Cut(t, front, ParseValue(t).rest) && Covers(front, Canonical(ParseValue(t).val, depth).value)
  {
    match ParseValue(t).val
    case Int(n) =>
      IntRead(t);
      front := IntShortest(t);
    case Str(s) =>
      TextRead(t);
      front := QuotedShortest(t);
    case Null =>
      WordRead(t);
      front := NULL_TEXT;
    case Bool(b) =>
      WordRead(t);
      front := if b then TRUE_TEXT else FALSE_TEXT;
  }

  lemma {:induction false} ArrayRead(t: Text)
    requires ParseValue(t).Got? && ParseValue(t).val.Arr?
    ensures var items, rest := ParseValue(t).val.items, ParseValue(t).rest;
            && t != [] && t[0] == 0x5B
            && if items == [] then |t| > 1 && t[1] == 0x5D && rest == t[2..]
               else ParseItems(t[1..]) == Got(items, rest)
  {
  }

  lemma {:induction false} ObjectRead(t: Text)
    requires ParseValue(t).Got? && ParseValue(t).val.Obj?
    ensures var fields, rest := ParseValue(t).val.fields, ParseValue(t).rest;
            && t != [] && t[0] == 0x7B
            && if fields == [] then |t| > 1 && t[1] == 0x7D && rest == t[2..]
               else ParseFields(t[1..]) == Got(fields, rest)
  {
  }

  lemma EmptyPrinted(depth: nat)
    ensures Canonical(Arr([]), depth).Ok? ==> Canonical(Arr([]), depth).value == [0x5B, 0x5D]
    ensures Canonical(Obj([]), depth).Ok? ==> Canonical(Obj([]), depth).value == [0x7B, 0x7D]
  {
  }

  /** No text reads as a value with its keys in order but is shorter than the one that is printed, and none is as
      long but that one. */
  lemma {:induction false} ValueShortest(t: Text, depth: nat) returns (front: Text)
    requires ParseValue(t).Got? && InOrder(ParseValue(t).val) && Canonical(ParseValue(t).val, depth).Ok?
    ensures Cut(t, front, ParseValue(t).rest) && Covers(front, Canonical(ParseValue(t).val, depth).value)
    decreases |t|, 0
  {
    var v, rest := ParseValue(t).val, ParseValue(t).rest;
    match v
    case Arr(items) =>
      ArrayRead(t);
      if items == [] {
        front := EmptyShortest(t);
        EmptyPrinted(depth);
      } else {
        var inner := ItemsShortest(t[1..], depth + 1);
        front := Wrapped(t, inner, PrintItems(items, depth + 1).value, 0x5D, rest);
      }
    case Obj(fields) =>
      ObjectRead(t);
      if fields == [] {
        front := EmptyShortest(t);
        EmptyPrinted(depth);
      } else {
        var inner := FieldsShortest(t[1..], depth + 1);
        front := Wrapped(t, inner, PrintFields(fields, depth + 1).value, 0x7D, rest);
      }
    case _ => front := ScalarShortest(t, depth);
  }

  lemma EmptyShortest(t: Text) returns (front: Text)
    requires |t| > 1 && (t[1] == 0x5D || t[1] == 0x7D)
    ensures Cut(t, front, t[2..]) && front == [t[0], t[1]]
  {
    front := t[..2];
  }

  lemma Wrapped(t: Text, inner: Text, printed: Text, close: CodePoint, rest: Text) returns (front: Text)
    requires t != [] && Cut(t[1..], inner, rest) && Covers(inner, printed + [close])
    ensures Cut(t, front, rest) && Covers(front, [t[0]] + printed + [close])
  {
    front := [t[0]] + inner;
    CutFirst(t);
    CutTwice(t, [t[0]], t[1..], inner, rest);
    Bracketed(t[0], inner, printed, close);
  }

  lemma Bracketed(open: CodePoint, inner: Text, printed: Text, close: CodePoint)
    requires Covers(inner, printed + [close])
    ensures Covers([open] + inner, [open] + printed + [close])
  {
    CoversConcat([open], [open], inner, printed + [close]);
    assert [open] + (printed + [close]) == [open] + printed + [close];
  }

  lemma {:induction false} ItemsShortest(t: Text, depth: nat) returns (front: Text)
    requires ParseItems(t).Got? && ItemsInOrder(ParseItems(t).val) && PrintItems(ParseItems(t).val, depth).Ok?
    ensures Cut(t, front, ParseItems(t).rest)
    ensures Covers(front, PrintItems(ParseItems(t).val, depth).value + [0x5D])
    decreases |t|, 1
  {
    var items := ParseItems(t).val;
    var behind := ParseValue(t).rest;
    assert items[0] == ParseValue(t).val;
    var first := ValueShortest(t, depth);
    var text := Canonical(items[0], depth).value;
    CutFirst(behind);
    if behind[0] == 0x5D {
      front := first + [behind[0]];
      CutTwice(t, first, behind, [behind[0]], behind[1..]);
      CoversConcat(first, text, [behind[0]], [0x5D]);
      assert text + [] == text;
    } else {
      assert items[1..] == ParseItems(behind[1..]).val;
      var others := ItemsShortest(behind[1..], depth);
      front := first + ([behind[0]] + others);
      CutTwice(behind, [behind[0]], behind[1..], others, ParseItems(t).rest);
      CutTwice(t, first, behind, [behind[0]] + others, ParseItems(t).rest);
      Bracketed(0x2C, others, PrintItems(items[1..], depth).value, 0x5D);
      Appended(first, text, [behind[0]] + others, [0x2C] + PrintItems(items[1..], depth).value, 0x5D);
    }
  }

  lemma Appended(first: Text, p: Text, others: Text, q: Text, close: CodePoint)
    requires Covers(first, p) && Covers(others, q + [close])
    ensures Covers(first + others, (p + q) + [close])
  {
    CoversConcat(first, p, others, q + [close]);
    assert p + (q + [close]) == (p + q) + [close];
  }

  lemma {:induction false} FieldsShortest(t: Text, depth: nat) returns (front: Text)
    requires ParseFields(t).Got? && FieldsInOrder(ParseFields(t).val) && PrintFields(ParseFields(t).val, depth).Ok?
    ensures Cut(t, front, ParseFields(t).rest)
    ensures Covers(front, PrintFields(ParseFields(t).val, depth).value + [0x7D])
    decreases |t|, 1
  {
    var fields := ParseFields(t).val;
    var key, afterKey := ParseChars(t[1..]).val, ParseChars(t[1..]).rest;
    var v, behind := ParseValue(afterKey[1..]).val, ParseValue(afterKey[1..]).rest;
    assert fields[0] == Field(key, v) && SizeField(fields[0]) == 1 + Size(fields[0].val);
    var head := KeyShortest(t, key, afterKey);
    var val := ValueShortest(afterKey[1..], depth);
    var printed := PrintString(key).value + [0x3A] + Canonical(v, depth).value;
    CoversConcat(head, PrintString(key).value + [0x3A], val, Canonical(v, depth).value);
    CutTwice(t, head, afterKey[1..], val, behind);
    CutFirst(behind);
    if behind[0] == 0x7D {
      front := (head + val) + [behind[0]];
      CutTwice(t, head + val, behind, [behind[0]], behind[1..]);
      CoversConcat(head + val, printed, [behind[0]], [0x7D]);
      assert printed + [] == printed;
    } else {
      assert fields[1..] == ParseFields(behind[1..]).val;
      var others := FieldsShortest(behind[1..], depth);
      front := (head + val) + ([behind[0]] + others);
      CutTwice(behind, [behind[0]], behind[1..], others, ParseFields(t).rest);
      CutTwice(t, head + val, behind, [behind[0]] + others, ParseFields(t).rest);
      Bracketed(0x2C, others, PrintFields(fields[1..], depth).value, 0x7D);
      Appended(head + val, printed, [behind[0]] + others, [0x2C] + PrintFields(fields[1..], depth).value, 0x7D);
    }
  }

  lemma KeyShortest(t: Text, key: Text, afterKey: Text) returns (front: Text)
    requires t != [] && t[0] == QUOTE && ParseChars(t[1..]) == Got(key, afterKey) && PrintString(key).Ok?
    requires afterKey != [] && afterKey[0] == 0x3A
    ensures Cut(t, front, afterKey[1..]) && Covers(front, PrintString(key).value + [0x3A])
  {
    var chars := StringShortest(t[1..]);
    CutFirst(t);
    CutFirst(afterKey);
    CutTwice(t, [QUOTE], t[1..], chars, afterKey);
    CutTwice(t, [QUOTE] + chars, afterKey, [0x3A], afterKey[1..]);
    front := ([QUOTE] + chars) + [0x3A];
    Bracketed(QUOTE, chars, EscapeAll(key), QUOTE);
    CoversConcat([QUOTE] + chars, PrintString(key).value, [0x3A], [0x3A]);
  }

  // ---------------------------------------------------------------- the canonical text

  lemma {:induction false} NormalInOrder(v: Value, room: int)
    requires Acceptable(v, room) && DistinctKeys(v)
    ensures InOrder(Normal(v))
    decreases v
  {
    match v
    case Arr(items) =>
      NormalAt(items);
      forall i | 0 <= i < |items| ensures InOrder(NormalItems(items)[i]) {
        NormalInOrder(items[i], room - 1);
      }
      AllItemsInOrder(NormalItems(items));
    case Obj(fields) =>
      NormalFieldAt(fields);
      forall i | 0 <= i < |fields| ensures InOrder(NormalFields(fields)[i].val) {
        assert AcceptableField(fields[i], room - 1) && DistinctKeysField(fields[i]);
        NormalInOrder(fields[i].val, room - 1);
      }
      AcceptableKeys(fields, room);
      SortedInOrder(NormalFields(fields));
    case _ =>
  }

  lemma SortedInOrder(fields: seq<Field<Text>>)
    requires KeysOk(fields) && forall i :: 0 <= i < |fields| ==> InOrder(fields[i].val)
    ensures InOrder(Obj(SortBy(FieldBefore, fields)))
  {
    ResortIsSame(fields);
    SortMembers(FieldBefore, fields);
    AllFieldsInOrder(SortBy(FieldBefore, fields));
  }

  lemma {:induction false} AllItemsInOrder(items: seq<Value>)
    requires forall i :: 0 <= i < |items| ==> InOrder(items[i])
    ensures ItemsInOrder(items)
  {
    if items != [] {
      AllItemsInOrder(items[1..]);
    }
  }

  lemma {:induction false} AllFieldsInOrder(fields: seq<Field<Text>>)
    requires forall f :: f in fields ==> InOrder(f.val)
    ensures FieldsInOrder(fields)
  {
    if fields != [] {
      assert fields[0] in fields;
      AllFieldsInOrder(fields[1..]);
    }
  }

  /** Of all texts that read as the value with its keys in order, the canonical one is the shortest, and any other
      of its length only writes hexadecimal digits of escapes in upper case. */
  lemma CanonicalIsShortest(v: Value, t: Text)
    requires Print(v).Ok? && DistinctKeys(v) && Parse(t) == Some(Normal(v))
    ensures |Print(v).value| <= |t|
    ensures |Print(v).value| == |t| ==> CaseOf(t, Print(v).value)
  {
    PrintAccepts(v);
    NormalInOrder(v, MAX_DEPTH);
    NormalPrintsSame(v, 0);
    var front := ValueShortest(t, 0);
    assert front + [] == front;
  }

  // ---------------------------------------------------------------- the key order on code points

  /** Code points outside the basic plane go between U+D7FF and U+E000, and are otherwise in their own order. */
  predicate PointBefore(c: CodePoint, d: CodePoint) {
    if c >= 0x10000 && d < 0x10000 then d >= 0xE000
    else if c < 0x10000 && d >= 0x10000 then c < 0xE000
    else c < d
  }

  lemma {:induction false} LexBehind(front: seq<int>, a: seq<int>, b: seq<int>)
    ensures Lex(IntBefore, front + a, front + b) == Lex(IntBefore, a, b)
  {
    if front == [] {
      assert front + a == a && front + b == b;
    } else {
      assert (front + a)[1..] == front[1..] + a && (front + b)[1..] == front[1..] + b;
      LexBehind(front[1..], a, b);
    }
  }

  lemma UnitsDecide(c: CodePoint, d: CodePoint, a: seq<int>, b: seq<int>)
    requires c != d && !IsSurrogate(c) && !IsSurrogate(d)
    ensures Lex(IntBefore, Units(c) + a, Units(d) + b) == PointBefore(c, d)
  {
    var u, w := Units(c) + a, Units(d) + b;
    assert u[0] == Units(c)[0] && w[0] == Units(d)[0];
    if c >= 0x10000 && d >= 0x10000 {
      assert u[1..][0] == Units(c)[1] && w[1..][0] == Units(d)[1];
      assert c == 0x10000 + (u[0] - 0xD800) * 0x400 + (u[1] - 0xDC00);
      assert d == 0x10000 + (w[0] - 0xD800) * 0x400 + (w[1] - 0xDC00);
    }
  }

  lemma {:induction false} TextsDecide(a: Text, b: Text)
    requires Encodable(a) && Encodable(b)
    ensures Lex(IntBefore, Utf16(a), Utf16(b)) == Lex(PointBefore, a, b)
  {
    if a != [] && b != [] {
      if a[0] == b[0] {
        TextsDecide(a[1..], b[1..]);
        LexBehind(Units(a[0]), Utf16(a[1..]), Utf16(b[1..]));
      } else {
        UnitsDecide(a[0], b[0], Utf16(a[1..]), Utf16(b[1..]));
      }
    }
  }

  /** In these terms keys are sorted by their first different code point. */
  lemma KeyOrderOnCodePoints(a: Field<Text>, b: Field<Text>)
    requires Encodable(a.key) && Encodable(b.key)
    ensures FieldBefore(a, b) <==>
            exists k: nat :: && k <= |a.key| && k < |b.key| && a.key[..k] == b.key[..k]
                             && (k == |a.key| || PointBefore(a.key[k], b.key[k]))
  {
    KeyOrderIsUnitOrder(a, b);
    TextsDecide(a.key, b.key);
    LexExactly(PointBefore, a.key, b.key);
    if k: nat :| PartsAt(PointBefore, a.key, b.key, k) {
      assert a.key[..k] == b.key[..k] && (k == |a.key| || PointBefore(a.key[k], b.key[k]));
    }
    if k: nat :| && k <= |a.key| && k < |b.key| && a.key[..k] == b.key[..k]
                 && (k == |a.key| || PointBefore(a.key[k], b.key[k])) {
      assert PartsAt(PointBefore, a.key, b.key, k);
    }
  }

  // ---------------------------------------------------------------- its length in bytes

  /** The UTF-8 bytes of one code point. */
  function Bytes(c: CodePoint): seq<int> {
    if c < 0x80 then [c]
    else if c < 0x800 then [0xC0 + c / 0x40, 0x80 + c % 0x40]
    else if c < 0x10000 then [0xE0 + c / 0x1000, 0x80 + c / 0x40 % 0x40, 0x80 + c % 0x40]
    else [0xF0 + c / 0x40000, 0x80 + c / 0x1000 % 0x40, 0x80 + c / 0x40 % 0x40, 0x80 + c % 0x40]
  }

  function Utf8(t: Text): seq<int> {
    if t == [] then [] else Bytes(t[0]) + Utf8(t[1..])
  }

  /** The code point that the first bytes say, as many as the first one announces. */
  function FirstPoint(b: seq<int>): (int, int)
    requires b != [] && (b[0] < 0x80 || |b| >= 4 || (b[0] < 0xE0 && |b| >= 2) || (b[0] < 0xF0 && |b| >= 3))
  {
    if b[0] < 0x80 then (b[0], 1)
    else if b[0] < 0xE0 then ((b[0] - 0xC0) * 0x40 + (b[1] - 0x80), 2)
    else if b[0] < 0xF0 then ((b[0] - 0xE0) * 0x1000 + (b[1] - 0x80) * 0x40 + (b[2] - 0x80), 3)
    else ((b[0] - 0xF0) * 0x40000 + (b[1] - 0x80) * 0x1000 + (b[2] - 0x80) * 0x40 + (b[3] - 0x80), 4)
  }

  /** The bytes of a code point are bytes, and say that code point. */
  lemma BytesReadBack(c: CodePoint)
    ensures forall i :: 0 <= i < |Bytes(c)| ==> 0 <= Bytes(c)[i] < 0x100
    ensures 1 <= |Bytes(c)| <= 4 && (|Bytes(c)| == 1 <==> Bytes(c)[0] < 0x80)
    ensures (|Bytes(c)| == 2 ==> Bytes(c)[0] < 0xE0) && (|Bytes(c)| == 3 ==> Bytes(c)[0] < 0xF0)
    ensures FirstPoint(Bytes(c)) == (c, |Bytes(c)|)
  {
    assert c / 0x40 == 0x40 * (c / 0x1000) + c / 0x40 % 0x40;
    assert c / 0x1000 == 0x40 * (c / 0x40000) + c / 0x1000 % 0x40;
  }

  /** The length that is limited is that of the UTF-8 bytes. */
  lemma {:induction false} LengthOfBytes(t: Text)
    ensures |Utf8(t)| == Utf8Length(t)
  {
    if t != [] {
      LengthOfBytes(t[1..]);
    }
  }
}
