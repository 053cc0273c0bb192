/**
 * The JSON text of a parsed query string: `JSON.stringify` of the values the
 * query-string parser delivers (strings, arrays for repeated keys, nested
 * objects for bracket keys such as `price[gt]=10`) and the part of `JSON.parse`
 * that reads such text back.
 */
module JsonText {
  import opened Wrappers

  /** A query-string value. */
  datatype QValue = Str(s: string) | Arr(items: seq<QValue>) | Obj(fields: seq<Field>)

  /** One own property of an object, in insertion order. */
  datatype Field = Field(key: string, val: QValue)

  predicate IsControl(c: char) {
    c as int < 0x20
  }

  function HexDigit(d: nat): (c: char)
    requires d < 16
    ensures IsHexDigit(c) && HexValue(c) == d
  {
    if d < 10 then ('0' as int + d) as char else ('a' as int + d - 10) as char
  }

  predicate IsHexDigit(c: char) {
    '0' <= c <= '9' || 'a' <= c <= 'f' || 'A' <= c <= 'F'
  }

  function HexValue(c: char): (d: nat)
    requires IsHexDigit(c)
    ensures d < 16
  {
    if '0' <= c <= '9' then c as int - '0' as int
    else if 'a' <= c <= 'f' then c as int - 'a' as int + 10
    else c as int - 'A' as int + 10
  }

  /** How `JSON.stringify` writes one character inside a string literal. */
  function EscapeChar(c: char): string {
    if c == '"' then "\\\""
    else if c == '\\' then "\\\\"
    else if c as int == 0x08 then "\\b"
    else if c as int == 0x0C then "\\f"
    else if c == '\n' then "\\n"
    else if c == '\r' then "\\r"
    else if c == '\t' then "\\t"
    else if IsControl(c) then "\\u00" + [HexDigit(c as int / 16), HexDigit(c as int % 16)]
    else [c]
  }

  function Escape(s: string): string {
    if s == [] then [] else EscapeChar(s[0]) + Escape(s[1..])
  }

  function Quote(s: string): string {
    "\"" + Escape(s) + "\""
  }

  /** `JSON.stringify` of a query value (no whitespace, keys in insertion order). */
  function Serialize(v: QValue): string {
    match v
    case Str(s) => Quote(s)
    case Arr(items) => "[" + SerializeItems(items) + "]"
    case Obj(fields) => "{" + SerializeFields(fields) + "}"
  }

  function SerializeItems(items: seq<QValue>): string {
    if items == [] then ""
    else if |items| == 1 then Serialize(items[0])
    else Serialize(items[0]) + "," + SerializeItems(items[1..])
  }

  function SerializeField(f: Field): string {
    Quote(f.key) + ":" + Serialize(f.val)
  }

  function SerializeFields(fields: seq<Field>): string {
    if fields == [] then ""
    else if |fields| == 1 then SerializeField(fields[0])
    else SerializeField(fields[0]) + "," + SerializeFields(fields[1..])
  }

  /** The character an escape letter stands for (`\"`, `\\`, `\/`, `\b`, `\f`, `\n`, `\r`, `\t`). */
  function EscapedLetter(e: char): Option<char> {
    if e == '"' || e == '\\' || e == '/' then Some(e)
    else if e == 'b' then Some(0x08 as char)
    else if e == 'f' then Some(0x0C as char)
    else if e == 'n' then Some('\n')
    else if e == 'r' then Some('\r')
    else if e == 't' then Some('\t')
    else None
  }

  function HexNumber(a: nat, b: nat, c: nat, d: nat): (n: nat)
    requires a < 16 && b < 16 && c < 16 && d < 16
    ensures n < 0x10000
  {
    a * 0x1000 + b * 0x100 + c * 0x10 + d
  }

  /** The character of a `\uXXXX` escape; a lone surrogate has no `char` here. */
  function UnicodeEscape(h: string): Option<char>
    requires |h| == 4
  {
    if IsHexDigit(h[0]) && IsHexDigit(h[1]) && IsHexDigit(h[2]) && IsHexDigit(h[3]) then
      var code := HexNumber(HexValue(h[0]), HexValue(h[1]), HexValue(h[2]), HexValue(h[3]));
      if 0xD800 <= code < 0xE000 then None else Some(code as char)
    else None
  }

  /**
   * Reads the body of a string literal up to its closing quote and returns
   * the decoded string and the text after the quote.
   */
  function ParseStringBody(t: string): (r: Option<(string, string)>)
    ensures r.Some? ==> |r.value.1| < |t|
  {
    if t == [] then None
    else if t[0] == '"' then Some(("", t[1..]))
    else if t[0] == '\\' then
      if |t| < 2 then None
      else if t[1] == 'u' then
        if |t| < 6 then None
        else match UnicodeEscape(t[2..6])
          case None => None
          case Some(c) =>
            match ParseStringBody(t[6..])
            case None => None
            case Some((s, rest)) => Some(([c] + s, rest))
      else match EscapedLetter(t[1])
        case None => None
        case Some(c) =>
          match ParseStringBody(t[2..])
          case None => None
          case Some((s, rest)) => Some(([c] + s, rest))
    else if IsControl(t[0]) then None
    else match ParseStringBody(t[1..])
      case None => None
      case Some((s, rest)) => Some(([t[0]] + s, rest))
  }

  /** Reads one value from the front of `t` and returns it with the text after it. */
  function ParseValue(t: string): (r: Option<(QValue, string)>)
    decreases |t|, 1
    ensures r.Some? ==> |r.value.1| < |t|
  {
    if t == [] then None
    else if t[0] == '"' then AsStr(ParseStringBody(t[1..]))
    else if t[0] == '[' then ParseArrayRest(t[1..])
    else if t[0] == '{' then ParseObjectRest(t[1..])
    else None
  }

  function AsStr(r: Option<(string, string)>): Option<(QValue, string)> {
    match r
    case None => None
    case Some((s, rest)) => Some((Str(s), rest))
  }

  /** Reads what follows `[`: either `]` or `value(,value)*]`. */
  function ParseArrayRest(t: string): (r: Option<(QValue, string)>)
    decreases |t|, 3
    ensures r.Some? ==> |r.value.1| < |t|
  {
    if t != [] && t[0] == ']' then Some((Arr([]), t[1..]))
    else match ParseItems(t)
      case None => None
      case Some((items, rest)) => Some((Arr(items), rest))
  }

  /** Reads what follows `{`: either `}` or `"key":value(,"key":value)*}`. */
  function ParseObjectRest(t: string): (r: Option<(QValue, string)>)
    decreases |t|, 3
    ensures r.Some? ==> |r.value.1| < |t|
  {
    if t != [] && t[0] == '}' then Some((Obj([]), t[1..]))
    else match ParseFields(t)
      case None => None
      case Some((fields, rest)) => Some((Obj(fields), rest))
  }

  /** Reads `value(,value)*]` and returns the values and the text after `]`. */
  function ParseItems(t: string): (r: Option<(seq<QValue>, string)>)
    decreases |t|, 2
    ensures r.Some? ==> |r.value.1| < |t|
  {
    match ParseValue(t)
    case None => None
    case Some((v, rest)) =>
      if rest == [] then None
      else if rest[0] == ']' then Some(([v], rest[1..]))
      else if rest[0] == ',' then
        match ParseItems(rest[1..])
        case None => None
        case Some((more, rest')) => Some(([v] + more, rest'))
      else None
  }

  /** Reads `"key":value` and returns the member and the text after it. */
  function ParseMember(t: string): (r: Option<(Field, string)>)
    decreases |t|, 1
    ensures r.Some? ==> |r.value.1| < |t|
  {
    if t == [] || t[0] != '"' then None
    else match ParseStringBody(t[1..])
      case None => None
      case Some((key, afterKey)) =>
        if afterKey == [] || afterKey[0] != ':' then None
        else match ParseValue(afterKey[1..])
          case None => None
          case Some((v, rest)) => Some((Field(key, v), rest))
  }

  /** Reads `"key":value(,"key":value)*}` and returns the members and the text after `}`. */
  function ParseFields(t: string): (r: Option<(seq<Field>, string)>)
    decreases |t|, 2
    ensures r.Some? ==> |r.value.1| < |t|
  {
    match ParseMember(t)
    case None => None
    case Some((f, rest)) =>
      if rest == [] then None
      else if rest[0] == '}' then Some(([f], rest[1..]))
      else if rest[0] == ',' then
        match ParseFields(rest[1..])
        case None => None
        case Some((more, rest')) => Some(([f] + more, rest'))
      else None
  }

  /** `JSON.parse`: one value and nothing after it. */
  function Parse(t: string): Option<QValue> {
    match ParseValue(t)
    case None => None
    case Some((v, rest)) => if rest == [] then Some(v) else None
  }

  // ---------------------------------------------------------------------------
  // Round trip: JSON.parse(JSON.stringify(v)) == v

  lemma EscapeConcat(a: string, b: string)
    ensures Escape(a + b) == Escape(a) + Escape(b)
  {
    if a == [] {
      assert a + b == b;
    } else {
      assert (a + b)[0] == a[0];
      assert (a + b)[1..] == a[1..] + b;
      EscapeConcat(a[1..], b);
    }
  }

  /** The result of reading one more decoded character `c` in front of `r`. */
  function Prepend(c: char, r: Option<(string, string)>): Option<(string, string)> {
    match r
    case None => None
    case Some((s, rest)) => Some(([c] + s, rest))
  }

  lemma ParseUnicodeEscaped(c: char, tail: string)
    requires IsControl(c)
    ensures ParseStringBody("\\u00" + [HexDigit(c as int / 16), HexDigit(c as int % 16)] + tail)
         == Prepend(c, ParseStringBody(tail))
  {
    var h := [HexDigit(c as int / 16), HexDigit(c as int % 16)];
    var t := "\\u00" + h + tail;
    assert t[0] == '\\' && t[1] == 'u';
    assert t[2..6] == "00" + h;
    assert t[6..] == tail;
  }

  lemma ParseEscapedChar(c: char, tail: string)
    ensures ParseStringBody(EscapeChar(c) + tail) == Prepend(c, ParseStringBody(tail))
  {
    var t := EscapeChar(c) + tail;
    if IsControl(c) && c as int != 0x08 && c as int != 0x0C && c != '\n' && c != '\r' && c != '\t' {
      ParseUnicodeEscaped(c, tail);
    } else if |EscapeChar(c)| == 2 {
      assert t[0] == '\\' && t[1] == EscapeChar(c)[1];
      assert t[2..] == tail;
    } else {
      assert t[0] == c;
      assert t[1..] == tail;
    }
  }

  lemma {:induction false} ParseEscaped(s: string, rest: string)
    ensures ParseStringBody(Escape(s) + "\"" + rest) == Some((s, rest))
  {
    if s == [] {
      assert Escape(s) + "\"" + rest == "\"" + rest;
    } else {
      var tail := Escape(s[1..]) + "\"" + rest;
      assert Escape(s) + "\"" + rest == EscapeChar(s[0]) + tail;
      ParseEscapedChar(s[0], tail);
      ParseEscaped(s[1..], rest);
      assert [s[0]] + s[1..] == s;
    }
  }

  lemma ParseStrFrom(s: string, rest: string)
    ensures ParseValue(Quote(s) + rest) == Some((Str(s), rest))
  {
    var t := Quote(s) + rest;
    assert t[0] == '"' && t[1..] == Escape(s) + "\"" + rest;
    ParseEscaped(s, rest);
  }

  lemma ParseArrayFrom(itemsText: string, items: seq<QValue>, rest: string)
    requires ParseItems(itemsText + "]" + rest) == Some((items, rest))
    ensures ParseValue("[" + itemsText + "]" + rest) == Some((Arr(items), rest))
  {
    var t := "[" + itemsText + "]" + rest;
    assert t[0] == '[' && t[1..] == itemsText + "]" + rest;
  }

  lemma ParseObjectFrom(fieldsText: string, fields: seq<Field>, rest: string)
    requires ParseFields(fieldsText + "}" + rest) == Some((fields, rest))
    ensures ParseValue("{" + fieldsText + "}" + rest) == Some((Obj(fields), rest))
  {
    var t := "{" + fieldsText + "}" + rest;
    assert t[0] == '{' && t[1..] == fieldsText + "}" + rest;
  }

  lemma ParseEmptyArray(rest: string)
    ensures ParseValue("[]" + rest) == Some((Arr([]), rest))
  {
    var t := "[]" + rest;
    assert t[0] == '[' && t[1..][0] == ']' && t[1..][1..] == rest;
  }

  lemma ParseEmptyObject(rest: string)
    ensures ParseValue("{}" + rest) == Some((Obj([]), rest))
  {
    var t := "{}" + rest;
    assert t[0] == '{' && t[1..][0] == '}' && t[1..][1..] == rest;
  }

  lemma {:induction false} ParseSerialized(v: QValue, rest: string)
    decreases v, 1
    ensures ParseValue(Serialize(v) + rest) == Some((v, rest))
  {
    match v
    case Str(s) =>
      ParseStrFrom(s, rest);
    case Arr(items) =>
      if items == [] {
        ParseEmptyArray(rest);
        assert Serialize(v) == "[]";
      } else {
        ParseSerializedItems(items, rest);
        ParseArrayFrom(SerializeItems(items), items, rest);
      }
    case Obj(fields) =>
      if fields == [] {
        ParseEmptyObject(rest);
        assert Serialize(v) == "{}";
      } else {
        ParseSerializedFields(fields, rest);
        ParseObjectFrom(SerializeFields(fields), fields, rest);
      }
  }

  lemma ParseItemsLast(valText: string, v: QValue, rest: string)
    requires ParseValue(valText + ("]" + rest)) == Some((v, "]" + rest))
    ensures ParseItems(valText + "]" + rest) == Some(([v], rest))
  {
    assert valText + "]" + rest == valText + ("]" + rest);
    assert ("]" + rest)[0] == ']' && ("]" + rest)[1..] == rest;
  }

  lemma ParseItemsNext(valText: string, v: QValue, more: string, items: seq<QValue>, rest: string)
    requires ParseValue(valText + ("," + more)) == Some((v, "," + more))
    requires ParseItems(more) == Some((items, rest))
    ensures ParseItems(valText + "," + more) == Some(([v] + items, rest))
  {
    assert valText + "," + more == valText + ("," + more);
    assert ("," + more)[0] == ',' && ("," + more)[1..] == more;
  }

  lemma SerializeItemsSplit(items: seq<QValue>, rest: string)
    requires |items| > 1
    ensures SerializeItems(items) + "]" + rest
         == Serialize(items[0]) + "," + (SerializeItems(items[1..]) + "]" + rest)
  {
  }

  lemma {:induction false} ParseSerializedItems(items: seq<QValue>, rest: string)
    requires items != []
    decreases items, 0
    ensures ParseItems(SerializeItems(items) + "]" + rest) == Some((items, rest))
  {
    var v := items[0];
    if |items| == 1 {
      ParseSerialized(v, "]" + rest);
      ParseItemsLast(Serialize(v), v, rest);
      assert [v] == items;
    } else {
      var more := SerializeItems(items[1..]) + "]" + rest;
      ParseSerialized(v, "," + more);
      ParseSerializedItems(items[1..], rest);
      ParseItemsNext(Serialize(v), v, more, items[1..], rest);
      SerializeItemsSplit(items, rest);
      assert [v] + items[1..] == items;
    }
  }

  lemma ParseMemberFrom(key: string, valText: string, v: QValue, rest: string)
    requires ParseValue(valText + rest) == Some((v, rest))
    ensures ParseMember(Quote(key) + ":" + valText + rest) == Some((Field(key, v), rest))
  {
    var t := Quote(key) + ":" + valText + rest;
    var afterKey := ":" + valText + rest;
    assert t[0] == '"' && t[1..] == Escape(key) + "\"" + afterKey;
    ParseEscaped(key, afterKey);
    assert afterKey[0] == ':' && afterKey[1..] == valText + rest;
  }

  lemma {:induction false} ParseSerializedMember(f: Field, rest: string)
    decreases f, 0
    ensures ParseMember(SerializeField(f) + rest) == Some((f, rest))
  {
    ParseSerialized(f.val, rest);
    ParseMemberFrom(f.key, Serialize(f.val), f.val, rest);
  }

  lemma SerializeFieldsSplit(fields: seq<Field>, rest: string)
    requires |fields| > 1
    ensures SerializeFields(fields) + "}" + rest
         == SerializeField(fields[0]) + "," + (SerializeFields(fields[1..]) + "}" + rest)
  {
  }

  lemma ParseFieldsLast(memberText: string, f: Field, rest: string)
    requires ParseMember(memberText + ("}" + rest)) == Some((f, "}" + rest))
    ensures ParseFields(memberText + "}" + rest) == Some(([f], rest))
  {
    assert memberText + "}" + rest == memberText + ("}" + rest);
    assert ("}" + rest)[0] == '}' && ("}" + rest)[1..] == rest;
  }

  lemma ParseFieldsNext(memberText: string, f: Field, more: string, fields: seq<Field>, rest: string)
    requires ParseMember(memberText + ("," + more)) == Some((f, "," + more))
    requires ParseFields(more) == Some((fields, rest))
    ensures ParseFields(memberText + "," + more) == Some(([f] + fields, rest))
  {
    assert memberText + "," + more == memberText + ("," + more);
    assert ("," + more)[0] == ',' && ("," + more)[1..] == more;
  }

  lemma {:induction false} ParseSerializedFields(fields: seq<Field>, rest: string)
    requires fields != []
    decreases fields, 0
    ensures ParseFields(SerializeFields(fields) + "}" + rest) == Some((fields, rest))
  {
    var f := fields[0];
    if |fields| == 1 {
      ParseSerializedMember(f, "}" + rest);
      ParseFieldsLast(SerializeField(f), f, rest);
      assert [f] == fields;
    } else {
      var more := SerializeFields(fields[1..]) + "}" + rest;
      ParseSerializedMember(f, "," + more);
      ParseSerializedFields(fields[1..], rest);
      ParseFieldsNext(SerializeField(f), f, more, fields[1..], rest);
      SerializeFieldsSplit(fields, rest);
      assert [f] + fields[1..] == fields;
    }
  }

  /** JSON.parse(JSON.stringify(v)) gives back v. */
  lemma ParseSerialize(v: QValue)
    ensures Parse(Serialize(v)) == Some(v)
  {
    ParseSerialized(v, "");
    assert Serialize(v) + "" == Serialize(v);
  }
}
