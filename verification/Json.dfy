/** JSON values and the canonical text `serde_json` gives them. */
module Json {
  import opened Prelude
  import opened Order

  /** `I64` is every number `as_i64` accepts; `Wide` is the rest, known by the
      bit pattern `as_f64` yields and by its text. */
  datatype Number = I64(i: int) | Wide(bits: nat, text: string)

  datatype Json =
    | Null
    | Bool(b: bool)
    | Num(n: Number)
    | Str(s: string)
    | Arr(items: seq<Json>)
    | Obj(fields: map<string, Json>)

  function DigitChar(d: nat): char
    requires d < 10
  {
    '0' + d as char
  }

  /** Number of decimal digits. */
  function Digits(n: nat): (d: nat)
    ensures d >= 1
    ensures n < 10 ==> d == 1
    ensures 10 <= n < 100 ==> d == 2
    ensures n >= 100 ==> d >= 3
  {
    if n < 10 then 1 else 1 + Digits(n / 10)
  }

  function NatText(n: nat): (s: string)
    ensures |s| == Digits(n)
    ensures forall c :: c in s ==> '0' <= c <= '9'
  {
    if n < 10 then [DigitChar(n)] else NatText(n / 10) + [DigitChar(n % 10)]
  }

  function IntText(i: int): string {
    if i < 0 then "-" + NatText(-i) else NatText(i)
  }

  const HEX := "0123456789abcdef"

  function EscapeChar(c: char): string {
    if c == '\"' then "\\\""
    else if c == '\\' then "\\\\"
    else if c == '\n' then "\\n"
    else if c == '\r' then "\\r"
    else if c == '\t' then "\\t"
    else if c == 8 as char then "\\b"
    else if c == 12 as char then "\\f"
    else if c < ' ' then "\\u00" + [HEX[c as int / 16], HEX[c as int % 16]]
    else [c]
  }

  function Escape(s: string): string {
    if s == "" then "" else EscapeChar(s[0]) + Escape(s[1..])
  }

  function Quote(s: string): string {
    "\"" + Escape(s) + "\""
  }

  /** `serde_json::to_string`; object keys in `BTreeMap` order. */
  function Encode(v: Json): string
    decreases v, 2, 0
  {
    match v
    case Null => "null"
    case Bool(b) => if b then "true" else "false"
    case Num(I64(i)) => IntText(i)
    case Num(Wide(_, text)) => text
    case Str(s) => Quote(s)
    case Arr(items) => "[" + EncodeItems(v, 0) + "]"
    case Obj(fields) => "{" + EncodeFields(v, SortedKeys(fields.Keys)) + "}"
  }

  function EncodeItems(v: Json, from: nat): string
    requires v.Arr? && from <= |v.items|
    decreases v, 1, |v.items| - from
  {
    if from == |v.items| then ""
    else (if from == 0 then "" else ",") + Encode(v.items[from]) + EncodeItems(v, from + 1)
  }

  function EncodeFields(v: Json, keys: seq<string>): string
    requires v.Obj? && forall k :: k in keys ==> k in v.fields
    decreases v, 1, |keys|
  {
    if keys == [] then ""
    else
      Quote(keys[0]) + ":" + Encode(v.fields[keys[0]])
      + (if |keys| == 1 then "" else ",") + EncodeFields(v, keys[1..])
  }

  /** Bytes one character takes in UTF-8. */
  function Utf8Len(c: char): (n: nat)
    ensures 1 <= n <= 4
  {
    if c as int < 0x80 then 1 else if c as int < 0x800 then 2
    else if c as int < 0x10000 then 3 else 4
  }

  /** Byte length of a text. */
  function Bytes(s: string): nat {
    if s == "" then 0 else Utf8Len(s[0]) + Bytes(s[1..])
  }

  lemma {:induction false} BytesConcat(a: string, b: string)
    ensures Bytes(a + b) == Bytes(a) + Bytes(b)
  {
    if a == "" {
      assert a + b == b;
    } else {
      assert (a + b)[1..] == a[1..] + b;
      BytesConcat(a[1..], b);
    }
  }

  lemma {:induction false} BytesAscii(s: string)
    requires forall c :: c in s ==> c as int < 0x80
    ensures Bytes(s) == |s|
  {
    if s != "" {
      assert s[0] in s;
      assert forall c :: c in s[1..] ==> c in s;
      BytesAscii(s[1..]);
    }
  }

  /** `Value::get` on an object; anything else has no fields. */
  function Field(v: Json, key: string): Option<Json> {
    if v.Obj? && key in v.fields then Some(v.fields[key]) else None
  }

  // ------------------------------------------------------------------ read back

  function HexValue(c: char): Option<nat> {
    if '0' <= c <= '9' then Some(c as int - '0' as int)
    else if 'a' <= c <= 'f' then Some(c as int - 'a' as int + 10)
    else None
  }

  /** One character of a JSON string, section 7 of RFC 8259: how many characters spell
      it, and what it is. A bare quote or control character is no character. */
  function ReadChar(s: string): Option<(nat, char)> {
    if s == "" || s[0] == '\"' || s[0] < ' ' then None
    else if s[0] != '\\' then Some((1, s[0]))
    else if |s| < 2 then None
    else match s[1]
         case '\"' => Some((2, '\"'))
         case '\\' => Some((2, '\\'))
         case 'n' => Some((2, 10 as char))
         case 'r' => Some((2, 13 as char))
         case 't' => Some((2, 9 as char))
         case 'b' => Some((2, 8 as char))
         case 'f' => Some((2, 12 as char))
         case 'u' =>
           if |s| < 6 || s[2] != '0' || s[3] != '0' || HexValue(s[4]).None? || HexValue(s[5]).None? then None
           else Some((6, (16 * HexValue(s[4]).value + HexValue(s[5]).value) as char))
         case _ => None
  }

  /** What stands between the quotes. */
  function ReadBody(s: string): Option<string> {
    if s == "" then Some("")
    else match ReadChar(s)
         case None => None
         case Some((n, c)) =>
           if n > |s| || n == 0 then None
           else match ReadBody(s[n..]) case None => None case Some(rest) => Some([c] + rest)
  }

  lemma EscapeCharReads(c: char, rest: string)
    ensures EscapeChar(c) != "" && ReadChar(EscapeChar(c) + rest) == Some((|EscapeChar(c)|, c))
  {
    var e := EscapeChar(c) + rest;
    assert forall i :: 0 <= i < |EscapeChar(c)| ==> e[i] == EscapeChar(c)[i];
    if c < ' ' { HexReads(c as int); }
  }

  lemma HexReads(n: nat)
    requires n < 32
    ensures HexValue(HEX[n / 16]) == Some(n / 16) && HexValue(HEX[n % 16]) == Some(n % 16)
  {
    HexDigit(n / 16);
    HexDigit(n % 16);
  }

  lemma HexDigit(d: nat)
    requires d < 16
    ensures HexValue(HEX[d]) == Some(d)
  {
    assert HEX[0] == '0' && HEX[1] == '1' && HEX[2] == '2' && HEX[3] == '3' && HEX[4] == '4' && HEX[5] == '5';
    assert HEX[6] == '6' && HEX[7] == '7' && HEX[8] == '8' && HEX[9] == '9' && HEX[10] == 'a' && HEX[11] == 'b';
    assert HEX[12] == 'c' && HEX[13] == 'd' && HEX[14] == 'e' && HEX[15] == 'f';
  }

  /** An escaped string reads back, so no two strings are written alike, and a quote
      inside never ends one early. */
  lemma {:induction false} EscapeReads(s: string)
    ensures ReadBody(Escape(s)) == Some(s)
  {
    if s != "" {
      hide EscapeChar, ReadChar;
      EscapeReads(s[1..]);
      EscapeCharReads(s[0], Escape(s[1..]));
      var (e, rest) := (EscapeChar(s[0]), Escape(s[1..]));
      assert Escape(s) == e + rest && (e + rest)[|e|..] == rest;
      assert [s[0]] + s[1..] == s;
    }
  }

  /** The five control characters with a short form take it, the others four digits. */
  lemma ControlText(c: char)
    requires c < ' '
    ensures Escape([10 as char]) == "\\n" && Escape([13 as char]) == "\\r" && Escape([9 as char]) == "\\t"
    ensures Escape([8 as char]) == "\\b" && Escape([12 as char]) == "\\f"
    ensures c as int !in {8, 9, 10, 12, 13} ==>
      |Escape([c])| == 6 && Escape([c])[..4] == "\\u00" && HexValue(Escape([c])[4]) == Some(c as int / 16)
      && HexValue(Escape([c])[5]) == Some(c as int % 16)
  {
    assert forall x: char :: [x][1..] == "";
    HexReads(c as int);
  }

  function ReadNat(s: string): int {
    if s == "" then 0
    else 10 * ReadNat(s[..|s| - 1]) + (s[|s| - 1] as int - '0' as int)
  }

  /** Decimal text reads back, and starts with no idle zero. */
  lemma {:induction false} NatReads(n: nat)
    ensures ReadNat(NatText(n)) == n && (n > 0 ==> NatText(n)[0] != '0')
  {
    if n < 10 {
      assert NatText(n)[..0] == "";
    } else {
      NatReads(n / 10);
      assert NatText(n)[..|NatText(n)| - 1] == NatText(n / 10);
    }
  }

  lemma SampleArray()
    ensures Encode(Arr([Null, Bool(true), Num(I64(-7))])) == "[null,true,-7]"
  {
    var arr := Arr([Null, Bool(true), Num(I64(-7))]);
    assert EncodeItems(arr, 3) == "";
    assert EncodeItems(arr, 2) == ",-7";
    assert EncodeItems(arr, 1) == ",true,-7";
  }

  lemma EscapePlain(c: char)
    requires ' ' <= c && c != '\"' && c != '\\'
    ensures Quote([c]) == ['\"', c, '\"']
  {
    assert [c][1..] == "";
    assert Escape([c]) == [c] + Escape("");
  }

  lemma TwoFields(v: Json, j: string, k: string)
    requires v.Obj? && j in v.fields && k in v.fields
    ensures EncodeFields(v, [j, k]) == Quote(j) + ":" + Encode(v.fields[j]) + "," + (Quote(k) + ":" + Encode(v.fields[k]))
  {
    hide Quote, Encode;
    var keys := [j, k];
    assert keys[1..] == [k] && keys[1..][1..] == [];
    assert EncodeFields(v, []) == "";
  }

  /** An object written out: keys in order, no comma after the last. */
  lemma SampleText()
    ensures Encode(Obj(map["b" := Null, "a" := Str("x")])) ==
      "{" + ("\"a\"" + ":" + "\"x\"" + "," + ("\"b\"" + ":" + "null")) + "}"
  {
    hide Quote, Encode, EncodeFields, SortedKeys, StrLess;
    var obj := Obj(map["b" := Null, "a" := Str("x")]);
    assert obj.fields["a"] == Str("x") && obj.fields["b"] == Null;
    assert Quote("a") == "\"a\"" by { EscapePlain('a'); }
    assert Quote("b") == "\"b\"" by { EscapePlain('b'); }
    assert Quote("x") == "\"x\"" by { EscapePlain('x'); }
    EncodeStr("x");
    assert Encode(Null) == "null" by { EncodeNull(); }
    TwoKeys(obj.fields.Keys);
    TwoFields(obj, "a", "b");
    EncodeObj(obj);
  }

  lemma EncodeNull()
    ensures Encode(Null) == "null"
  {
  }

  lemma EncodeStr(s: string)
    ensures Encode(Str(s)) == Quote(s)
  {
  }

  lemma EncodeObj(v: Json)
    requires v.Obj?
    ensures Encode(v) == "{" + EncodeFields(v, SortedKeys(v.fields.Keys)) + "}"
  {
  }

  lemma SampleEmpty()
    ensures Encode(Arr([])) == "[]" && Encode(Obj(map[])) == "{}" && Encode(Bool(false)) == "false"
    ensures Encode(Num(Wide(0, "1.5"))) == "1.5" && Encode(Num(I64(0))) == "0"
  {
    assert SortedKeys({}) == [];
    var obj := Obj(map[]);
    assert obj.fields.Keys == {};
  }

  lemma TwoKeys(s: set<string>)
    requires s == {"a", "b"}
    ensures SortedKeys(s) == ["a", "b"]
  {
    var r := SortedKeys(s);
    assert |s| == 2;
    assert r[0] in s && r[1] in s && StrLess(r[0], r[1]);
    assert "a" in r && "b" in r;
  }

  /** UTF-8 lengths at the bounds of section 3 of RFC 3629. */
  lemma Utf8Bounds()
    ensures Bytes([0 as char]) == 1 && Bytes([0x7f as char]) == 1
    ensures Bytes([0x80 as char]) == 2 && Bytes([0x7ff as char]) == 2
    ensures Bytes([0x800 as char]) == 3 && Bytes([0xffff as char]) == 3
    ensures Bytes([0x10000 as char]) == 4 && Bytes([0x10ffff as char]) == 4
  {
    assert forall c: char :: [c][1..] == "";
  }
}
