/** The deterministic JSON text that enrollment digests are computed over, and its reader. */
module CanonicalJson {
  import opened Order
  import opened Wrappers
  import opened JsonValue

  type CodePoint = c: int | 0 <= c <= 0x10FFFF

  type Text = seq<CodePoint>

  type Value = Json<Text>

  datatype Fault = TooDeep | UnsafeInteger | LoneSurrogate | TooLarge

  const MAX_SAFE_INTEGER := 0x1F_FFFF_FFFF_FFFF
  const MAX_DEPTH := 32
  const MAX_BYTES := 1048576

  // ---------------------------------------------------------------- strings

  predicate IsSurrogate(c: int) { 0xD800 <= c <= 0xDFFF }

  predicate Encodable(s: Text) { forall i :: 0 <= i < |s| ==> !IsSurrogate(s[i]) }

  const QUOTE: CodePoint := 0x22
  const BACKSLASH: CodePoint := 0x5C

  function HexDigit(d: int): CodePoint
    requires 0 <= d < 16
  {
    if d < 10 then 0x30 + d else 0x57 + d
  }

  function Escape(c: CodePoint): Text {
    if c == QUOTE then [BACKSLASH, QUOTE]
    else if c == BACKSLASH then [BACKSLASH, BACKSLASH]
    else if c == 8 then [BACKSLASH, 0x62]
    else if c == 12 then [BACKSLASH, 0x66]
    else if c == 10 then [BACKSLASH, 0x6E]
    else if c == 13 then [BACKSLASH, 0x72]
    else if c == 9 then [BACKSLASH, 0x74]
    else if c < 0x20 then [BACKSLASH, 0x75, 0x30, 0x30, HexDigit(c / 16), HexDigit(c % 16)]
    else [c]
  }

  function EscapeAll(s: Text): Text {
    if s == [] then [] else Escape(s[0]) + EscapeAll(s[1..])
  }

  function PrintString(s: Text): Result<Text, Fault> {
    if Encodable(s) then Ok([QUOTE] + EscapeAll(s) + [QUOTE]) else Err(LoneSurrogate)
  }

  // ---------------------------------------------------------------- numbers

  function Digits(n: nat): Text {
    if n < 10 then [0x30 + n] else Digits(n / 10) + [0x30 + n % 10]
  }

  function PrintInt(n: int): Result<Text, Fault> {
    if n < -MAX_SAFE_INTEGER || n > MAX_SAFE_INTEGER then Err(UnsafeInteger)
    else Ok(if n < 0 then [0x2D] + Digits(-n) else Digits(n))
  }

  // ---------------------------------------------------------------- key order

  /** The UTF-16 code units of one code point. */
  function Units(c: CodePoint): seq<int> {
    if c < 0x10000 then [c] else [0xD800 + (c - 0x10000) / 0x400, 0xDC00 + (c - 0x10000) % 0x400]
  }

  function Utf16(s: Text): seq<int> {
    if s == [] then [] else Units(s[0]) + Utf16(s[1..])
  }

  function BigEndian(units: seq<int>): seq<int> {
    if units == [] then [] else [units[0] / 256, units[0] % 256] + BigEndian(units[1..])
  }

  predicate IntBefore(a: int, b: int) { a < b }

  /** Fields are sorted by the UTF-16BE bytes of their keys. */
  predicate FieldBefore(a: Field<Text>, b: Field<Text>) {
    Lex(IntBefore, BigEndian(Utf16(a.key)), BigEndian(Utf16(b.key)))
  }

  // ---------------------------------------------------------------- printer

  const NULL_TEXT: Text := [0x6E, 0x75, 0x6C, 0x6C]
  const TRUE_TEXT: Text := [0x74, 0x72, 0x75, 0x65]
  const FALSE_TEXT: Text := [0x66, 0x61, 0x6C, 0x73, 0x65]

  function Canonical(v: Value, depth: nat): Result<Text, Fault>
    decreases Size(v), 0
  {
    if depth > MAX_DEPTH then Err(TooDeep)
    else match v
      case Null => Ok(NULL_TEXT)
      case Bool(b) => Ok(if b then TRUE_TEXT else FALSE_TEXT)
      case Int(n) => PrintInt(n)
      case Str(s) => PrintString(s)
      case Arr(items) =>
        (match PrintItems(items, depth + 1)
         case Err(e) => Err(e)
         case Ok(t) => Ok([0x5B] + t + [0x5D]))
      case Obj(fields) =>
        if exists i :: 0 <= i < |fields| && !Encodable(fields[i].key) then Err(LoneSurrogate)
        else
          SortKeepsSize(fields);
          match PrintFields(SortBy(FieldBefore, fields), depth + 1)
          case Err(e) => Err(e)
          case Ok(t) => Ok([0x7B] + t + [0x7D])
  }

  /** The elements, separated by commas. */
  function PrintItems(items: seq<Value>, depth: nat): Result<Text, Fault>
    decreases SizeItems(items), 1
  {
    if items == [] then Ok([])
    else
      match Canonical(items[0], depth)
      case Err(e) => Err(e)
      case Ok(first) =>
        match PrintItems(items[1..], depth)
        case Err(e) => Err(e)
        case Ok(rest) => Ok(first + (if |items| == 1 then [] else [0x2C] + rest))
  }

  function PrintFields(fields: seq<Field<Text>>, depth: nat): Result<Text, Fault>
    decreases SizeFields(fields), 1
  {
    if fields == [] then Ok([])
    else
      assert SizeField(fields[0]) == 1 + Size(fields[0].val);
      match PrintString(fields[0].key)
      case Err(e) => Err(e)
      case Ok(key) =>
        match Canonical(fields[0].val, depth)
        case Err(e) => Err(e)
        case Ok(val) =>
          match PrintFields(fields[1..], depth)
          case Err(e) => Err(e)
          case Ok(rest) => Ok(key + [0x3A] + val + (if |fields| == 1 then [] else [0x2C] + rest))
  }

  function Utf8Length(t: Text): nat {
    if t == [] then 0
    else (if t[0] < 0x80 then 1 else if t[0] < 0x800 then 2 else if t[0] < 0x10000 then 3 else 4) + Utf8Length(t[1..])
  }

  /** The canonical text, which the source returns as its UTF-8 bytes. */
  function Print(v: Value): Result<Text, Fault> {
    match Canonical(v, 0)
    case Err(e) => Err(e)
    case Ok(t) => if Utf8Length(t) > MAX_BYTES then Err(TooLarge) else Ok(t)
  }

  lemma {:induction false} InsertKeepsSize(x: Field<Text>, s: seq<Field<Text>>)
    ensures SizeFields(Insert(FieldBefore, x, s)) == SizeFields([x]) + SizeFields(s)
  {
    if s != [] && !FieldBefore(x, s[0]) {
      InsertKeepsSize(x, s[1..]);
    }
  }

  lemma {:induction false} SortKeepsSize(s: seq<Field<Text>>)
    ensures SizeFields(SortBy(FieldBefore, s)) == SizeFields(s)
  {
    if s != [] {
      SortKeepsSize(s[1..]);
      InsertKeepsSize(s[0], SortBy(FieldBefore, s[1..]));
    }
  }
}
