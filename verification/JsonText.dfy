/** JSON objects as the Go encoder prints them, nested to any depth, and the parser that reads them back. */
module JsonText {
  import opened Prelude
  import opened Strings
  import opened Numbers

  datatype Value =
    | Null
    | Bool(b: bool)
    | Num(n: Number)
    | Str(s: string)
    | List(items: seq<Value>)
    | Object(members: map<string, Value>)

  type Meta = map<string, Value>

  // ----- Printing -----

  function Hex(d: nat): char
    requires d < 16
  {
    if d < 10 then '0' + d as char else 'a' + (d - 10) as char
  }

  function Unicode(n: nat): string
    requires n < 0x10000
  {
    "\\u" + [Hex(n / 4096), Hex(n / 256 % 16), Hex(n / 16 % 16), Hex(n % 16)]
  }

  predicate IsEscapedByCode(c: char) {
    c < ' ' || c == '<' || c == '>' || c == '&' || c as int == 0x2028 || c as int == 0x2029
  }

  /** Section 7 of RFC 8259, with Go's escaping of HTML characters and line separators. */
  function EncodeChar(c: char): (r: string)
    ensures r != ""
  {
    if c == '"' then "\\\""
    else if c == '\\' then "\\\\"
    else if c == '\n' then "\\n"
    else if c == '\r' then "\\r"
    else if c == '\t' then "\\t"
    else if c as int == 8 then "\\b"
    else if c as int == 12 then "\\f"
    else if IsEscapedByCode(c) then Unicode(c as int)
    else [c]
  }

  function EncodeChars(s: string): string {
    if s == "" then "" else EncodeChar(s[0]) + EncodeChars(s[1..])
  }

  function EncodeString(s: string): string {
    "\"" + EncodeChars(s) + "\""
  }

  ghost function EncodeValue(v: Value): (r: string)
    ensures r != ""
    decreases v, 3
  {
    match v
    case Null => "null"
    case Bool(b) => if b then "true" else "false"
    case Num(n) => JsonNumber(n)
    case Str(s) => EncodeString(s)
    case List(items) => if items == [] then "[]" else "[" + EncodeItems(items)
    case Object(members) => EncodeMeta(members)
  }

  /** The items and the closing bracket. */
  ghost function EncodeItems(items: seq<Value>): string
    requires items != []
    decreases items
  {
    EncodeValue(items[0]) + if |items| == 1 then "]" else "," + EncodeItems(items[1..])
  }

  ghost function EncodeMember(m: Meta, k: string): string
    requires k in m
    decreases Object(m), 0
  {
    EncodeString(k) + ":" + EncodeValue(m[k])
  }

  /** The members for `keys` and the closing brace. */
  ghost function EncodeMembers(m: Meta, keys: seq<string>): string
    requires keys != [] && forall k :: k in keys ==> k in m
    decreases Object(m), 1, |keys|
  {
    EncodeMember(m, keys[0]) + if |keys| == 1 then "}" else "," + EncodeMembers(m, keys[1..])
  }

  /** Members in byte order of their names. */
  ghost function EncodeMeta(m: Meta): (r: string)
    ensures r != ""
    decreases Object(m), 2
  {
    if m == map[] then "{}" else
      assert m.Keys != {};
      "{" + EncodeMembers(m, SortedNames(m.Keys))
  }

  // ----- Parsing -----

  function HexValue(c: char): Option<nat> {
    if '0' <= c <= '9' then Some((c - '0') as nat)
    else if 'a' <= c <= 'f' then Some((c - 'a') as nat + 10)
    else if 'A' <= c <= 'F' then Some((c - 'A') as nat + 10)
    else None
  }

  /** The character after a backslash; code units that are no characters by themselves are refused. */
  function ParseEscape(t: string): (r: Reading<char>)
    ensures r.Read? ==> |r.rest| < |t|
  {
    if t == "" then Fail
    else match t[0]
      case '"' => Read('"', t[1..])
      case '\\' => Read('\\', t[1..])
      case '/' => Read('/', t[1..])
      case 'n' => Read('\n', t[1..])
      case 'r' => Read('\r', t[1..])
      case 't' => Read('\t', t[1..])
      case 'b' => Read(8 as char, t[1..])
      case 'f' => Read(12 as char, t[1..])
      case 'u' => ParseUnicode(t[1..])
      case _ => Fail
  }

  function ParseUnicode(t: string): (r: Reading<char>)
    ensures r.Read? ==> |r.rest| < |t|
  {
    if |t| < 4 then Fail
    else
      var a, b, c, d := HexValue(t[0]), HexValue(t[1]), HexValue(t[2]), HexValue(t[3]);
      if a.None? || b.None? || c.None? || d.None? then Fail
      else
        var n := a.value * 4096 + b.value * 256 + c.value * 16 + d.value;
        if n < 0xD800 then Read(n as char, t[4..]) else Fail
  }

  /** The rest of a string, after its opening quote. */
  function ParseChars(t: string): (r: Reading<string>)
    ensures r.Read? ==> |r.rest| < |t|
    decreases |t|
  {
    if t == "" then Fail
    else if t[0] == '"' then Read("", t[1..])
    else if t[0] == '\\' then
      var c := ParseEscape(t[1..]);
      if c.Fail? then Fail
      else
        var more := ParseChars(c.rest);
        if more.Fail? then Fail else Read([c.value] + more.value, more.rest)
    else if t[0] < ' ' then Fail
    else
      var more := ParseChars(t[1..]);
      if more.Fail? then Fail else Read([t[0]] + more.value, more.rest)
  }

  function ParseString(t: string): (r: Reading<string>)
    ensures r.Read? ==> |r.rest| < |t|
  {
    if t == "" || t[0] != '"' then Fail else ParseChars(t[1..])
  }

  function ParseValue(t: string): (r: Reading<Value>)
    ensures r.Read? ==> |r.rest| < |t|
    decreases |t|, 0
  {
    if t == "" then Fail
    else if t[0] == '"' then
      var s := ParseString(t);
      if s.Fail? then Fail else Read(Str(s.value), s.rest)
    else if t[0] == '-' || IsDigit(t[0]) then
      var n := ParseNumber(t);
      if n.Fail? then Fail else Read(Num(n.value), n.rest)
    else if t[0] == '[' then
      if HasPrefix(t, "[]") then Read(List([]), t[2..])
      else
        var items := ParseItems(t[1..]);
        if items.Fail? then Fail else Read(List(items.value), items.rest)
    else if t[0] == '{' then
      if HasPrefix(t, "{}") then Read(Object(map[]), t[2..])
      else
        var m := ParseMembers(t[1..], map[]);
        if m.Fail? then Fail else Read(Object(m.value), m.rest)
    else if HasPrefix(t, "null") then Read(Null, t[4..])
    else if HasPrefix(t, "true") then Read(Bool(true), t[4..])
    else if HasPrefix(t, "false") then Read(Bool(false), t[5..])
    else Fail
  }

  /** Items up to the closing bracket. */
  function ParseItems(t: string): (r: Reading<seq<Value>>)
    ensures r.Read? ==> |r.rest| < |t|
    decreases |t|, 1
  {
    var v := ParseValue(t);
    if v.Fail? || v.rest == "" then Fail
    else if v.rest[0] == ']' then Read([v.value], v.rest[1..])
    else if v.rest[0] == ',' then
      var more := ParseItems(v.rest[1..]);
      if more.Fail? then Fail else Read([v.value] + more.value, more.rest)
    else Fail
  }

  /** Members up to the closing brace; a repeated name takes its last value. */
  function ParseMembers(t: string, m: Meta): (r: Reading<Meta>)
    ensures r.Read? ==> |r.rest| < |t|
    decreases |t|, 1
  {
    var k := ParseString(t);
    if k.Fail? || k.rest == "" || k.rest[0] != ':' then Fail
    else
      var v := ParseValue(k.rest[1..]);
      if v.Fail? || v.rest == "" then Fail
      else if v.rest[0] == '}' then Read(m[k.value := v.value], v.rest[1..])
      else if v.rest[0] == ',' then ParseMembers(v.rest[1..], m[k.value := v.value])
      else Fail
  }

  /** The whole text must be one object. */
  function ParseMeta(t: string): Option<Meta> {
    var r := ParseValue(t);
    if r.Read? && r.rest == "" && r.value.Object? then Some(r.value.members) else None
  }

  // ----- The round trip -----

  lemma HexBack(d: nat)
    requires d < 16
    ensures HexValue(Hex(d)) == Some(d)
  {
  }

  lemma HexDigits(n: nat)
    requires n < 0x10000
    ensures n == n / 4096 * 4096 + n / 256 % 16 * 256 + n / 16 % 16 * 16 + n % 16 && n / 4096 < 16
  {
    var a := n / 16;
    var b := a / 16;
    assert n == a * 16 + n % 16;
    assert a == b * 16 + a % 16;
    assert b == b / 16 * 16 + b % 16;
    assert b == n / 256 && b / 16 == n / 4096;
  }

  lemma FourDigits(a: nat, b: nat, c: nat, d: nat, rest: string)
    requires a < 16 && b < 16 && c < 16 && d < 16
    ensures var n := a * 4096 + b * 256 + c * 16 + d;
            ParseUnicode([Hex(a), Hex(b), Hex(c), Hex(d)] + rest) == if n < 0xD800 then Read(n as char, rest) else Fail
  {
    hide Hex, HexValue;
    HexBack(a);
    HexBack(b);
    HexBack(c);
    HexBack(d);
    assert ([Hex(a), Hex(b), Hex(c), Hex(d)] + rest)[4..] == rest;
  }

  lemma UnicodeBack(n: nat, rest: string)
    requires n < 0xD800
    ensures ParseUnicode(Unicode(n)[2..] + rest) == Read(n as char, rest)
  {
    hide Hex, HexValue, ParseUnicode;
    var a, b, c, d := n / 4096, n / 256 % 16, n / 16 % 16, n % 16;
    HexDigits(n);
    FourDigits(a, b, c, d, rest);
    assert Unicode(n)[2..] == [Hex(a), Hex(b), Hex(c), Hex(d)];
  }

  predicate IsPlain(c: char) {
    c != '"' && c != '\\' && !IsEscapedByCode(c)
  }

  lemma PlainBack(c: char, t: string)
    requires IsPlain(c)
    ensures EncodeChar(c) == [c]
    ensures ParseChars([c] + t) == if ParseChars(t).Fail? then Fail else Read([c] + ParseChars(t).value, ParseChars(t).rest)
  {
    assert ([c] + t)[1..] == t;
  }

  lemma EscapeBack(c: char, t: string)
    requires !IsPlain(c)
    ensures EncodeChar(c)[0] == '\\' && ParseEscape(EncodeChar(c)[1..] + t) == Read(c, t)
  {
    hide Hex, HexValue, ParseUnicode, Unicode;
    UnicodeShape(c as int);
    if |EncodeChar(c)| == 2 {
      assert (EncodeChar(c)[1..] + t)[1..] == t;
    } else {
      UnicodeBack(c as int, t);
      assert (EncodeChar(c)[1..] + t)[1..] == Unicode(c as int)[2..] + t;
    }
  }

  lemma UnicodeShape(n: nat)
    requires n < 0x10000
    ensures |Unicode(n)| == 6 && Unicode(n)[0] == '\\' && Unicode(n)[1] == 'u'
  {
  }

  /** One encoded character reads back as that character. */
  lemma CharBack(c: char, t: string)
    ensures var r := ParseChars(t); var r' := ParseChars(EncodeChar(c) + t);
            r.Read? ==> r' == Read([c] + r.value, r.rest)
  {
    hide ParseEscape, EncodeChar;
    if IsPlain(c) {
      PlainBack(c, t);
    } else {
      EscapeBack(c, t);
      assert (EncodeChar(c) + t)[1..] == EncodeChar(c)[1..] + t;
    }
  }

  lemma {:induction false} CharsBack(s: string, rest: string)
    ensures ParseChars(EncodeChars(s) + "\"" + rest) == Read(s, rest)
  {
    hide EncodeChar, ParseEscape;
    if s == "" {
      assert EncodeChars(s) + "\"" + rest == "\"" + rest;
      assert ("\"" + rest)[1..] == rest;
    } else {
      CharsBack(s[1..], rest);
      var t := EncodeChars(s[1..]) + "\"" + rest;
      CharBack(s[0], t);
      hide ParseChars;
      assert EncodeChars(s) + "\"" + rest == EncodeChar(s[0]) + t;
      assert [s[0]] + s[1..] == s;
    }
  }

  lemma StringBack(s: string, rest: string)
    ensures ParseString(EncodeString(s) + rest) == Read(s, rest)
  {
    hide ParseChars, EncodeChars;
    CharsBack(s, rest);
    Quoted(EncodeChars(s), rest);
  }

  lemma Quoted(chars: string, rest: string)
    ensures ("\"" + chars + "\"" + rest)[0] == '"'
    ensures ("\"" + chars + "\"" + rest)[1..] == chars + "\"" + rest
  {
  }

  lemma WordBack(v: Value, rest: string)
    requires v.Null? || v.Bool?
    ensures ParseValue(EncodeValue(v) + rest) == Read(v, rest)
  {
    var t := EncodeValue(v) + rest;
    if v == Bool(false) {
      assert t[..5] == "false" && t[5..] == rest;
    } else {
      assert t[..4] == EncodeValue(v) && t[4..] == rest;
    }
  }

  lemma NumBack(n: Number, rest: string)
    requires Ends(rest)
    ensures ParseValue(JsonNumber(n) + rest) == Read(Num(n), rest)
  {
    hide JsonNumber, ParseNumber;
    NumberBack(n, rest);
    CharsOfNumber(n);
    assert (JsonNumber(n) + rest)[0] == JsonNumber(n)[0];
  }

  lemma StrBack(s: string, rest: string)
    ensures ParseValue(EncodeString(s) + rest) == Read(Str(s), rest)
  {
    hide ParseChars, EncodeChars;
    StringBack(s, rest);
  }

  /** Whatever is printed for a value, at any depth, reads back as that value. */
  lemma {:induction false} ValueBack(v: Value, rest: string)
    requires Ends(rest)
    ensures ParseValue(EncodeValue(v) + rest) == Read(v, rest)
    decreases v, 3
  {
    hide ParseValue, EncodeString, JsonNumber, ParseItems, ParseMembers, EncodeItems, EncodeMeta;
    match v
    case Null => WordBack(v, rest);
    case Bool(_) => WordBack(v, rest);
    case Num(n) => NumBack(n, rest);
    case Str(s) => StrBack(s, rest);
    case List(items) =>
      if items != [] {
        ItemsBack(items, rest);
      }
      ListBack(items, rest);
    case Object(members) => ObjectBack(members, rest);
  }

  lemma ListBack(items: seq<Value>, rest: string)
    requires items != [] ==> ParseItems(EncodeItems(items) + rest) == Read(items, rest)
    requires items != [] ==> EncodeItems(items) != "" && EncodeItems(items)[0] != ']'
    ensures ParseValue(EncodeValue(List(items)) + rest) == Read(List(items), rest)
  {
    hide EncodeItems, ParseItems, ParseMembers;
    if items == [] {
      assert ("[]" + rest)[..2] == "[]" && ("[]" + rest)[2..] == rest;
    } else {
      var t := "[" + EncodeItems(items) + rest;
      assert t[1..] == EncodeItems(items) + rest;
      assert t[1] == EncodeItems(items)[0];
    }
  }

  lemma {:induction false} ItemsBack(items: seq<Value>, rest: string)
    requires items != []
    ensures ParseItems(EncodeItems(items) + rest) == Read(items, rest)
    ensures EncodeItems(items) != "" && EncodeItems(items)[0] != ']'
    decreases items
  {
    hide ParseValue, EncodeValue;
    var after := (if |items| == 1 then "]" else "," + EncodeItems(items[1..])) + rest;
    ValueBack(items[0], after);
    FirstOfValue(items[0]);
    assert EncodeItems(items) + rest == EncodeValue(items[0]) + after;
    if |items| == 1 {
      assert items == [items[0]];
      assert after[1..] == rest;
    } else {
      assert after[1..] == EncodeItems(items[1..]) + rest;
      ItemsBack(items[1..], rest);
      assert [items[0]] + items[1..] == items;
    }
  }

  lemma FirstOfValue(v: Value)
    ensures EncodeValue(v)[0] != ']' && EncodeValue(v)[0] != '}'
  {
    hide JsonNumber;
    if v.Num? {
      CharsOfNumber(v.n);
    }
  }

  /** The entries of `m` for `keys` on top of those read before. */
  function Entries(m: Meta, keys: seq<string>, base: Meta): Meta
    requires forall k :: k in keys ==> k in m
  {
    if keys == [] then base else Entries(m, keys[1..], base[keys[0] := m[keys[0]]])
  }

  lemma {:induction false} MemberBack(m: Meta, k: string, rest: string)
    requires k in m && Ends(rest)
    ensures var t := EncodeMember(m, k) + rest;
            && ParseString(t).Read? && ParseString(t).value == k
            && ParseString(t).rest != "" && ParseString(t).rest[0] == ':'
            && ParseValue(ParseString(t).rest[1..]) == Read(m[k], rest)
    decreases Object(m), 0
  {
    hide ParseString, EncodeString, ParseValue, EncodeValue;
    var tail := ":" + EncodeValue(m[k]) + rest;
    StringBack(k, tail);
    assert EncodeMember(m, k) + rest == EncodeString(k) + tail;
    assert tail[1..] == EncodeValue(m[k]) + rest;
    ValueBack(m[k], rest);
  }

  lemma {:induction false} MembersBack(m: Meta, keys: seq<string>, base: Meta, rest: string)
    requires keys != [] && forall k :: k in keys ==> k in m
    ensures ParseMembers(EncodeMembers(m, keys) + rest, base) == Read(Entries(m, keys, base), rest)
    decreases Object(m), 1, |keys|
  {
    hide EncodeMember, ParseString, ParseValue;
    var k := keys[0];
    var after := (if |keys| == 1 then "}" else "," + EncodeMembers(m, keys[1..])) + rest;
    MemberBack(m, k, after);
    assert EncodeMembers(m, keys) + rest == EncodeMember(m, k) + after;
    if |keys| == 1 {
      assert after[1..] == rest;
      assert keys[1..] == [];
    } else {
      assert after[1..] == EncodeMembers(m, keys[1..]) + rest;
      MembersBack(m, keys[1..], base[k := m[k]], rest);
    }
  }

  lemma {:induction false} EntriesAt(m: Meta, keys: seq<string>, base: Meta, k: string)
    requires forall j :: j in keys ==> j in m
    ensures k in Entries(m, keys, base) <==> k in keys || k in base
    ensures k in keys ==> Entries(m, keys, base)[k] == m[k]
    ensures k !in keys && k in base ==> Entries(m, keys, base)[k] == base[k]
    decreases |keys|
  {
    if keys != [] {
      assert keys == [keys[0]] + keys[1..];
      EntriesAt(m, keys[1..], base[keys[0] := m[keys[0]]], k);
    }
  }

  lemma {:induction false} ObjectBack(m: Meta, rest: string)
    ensures ParseValue(EncodeMeta(m) + rest) == Read(Object(m), rest)
    decreases Object(m), 2
  {
    hide ParseMembers, EncodeMembers, SortedNames, Entries;
    if m == map[] {
      assert ("{}" + rest)[..2] == "{}" && ("{}" + rest)[2..] == rest;
    } else {
      var keys := SortedNames(m.Keys);
      assert m.Keys != {};
      MembersBack(m, keys, map[], rest);
      EntriesAll(m, keys);
      var body := EncodeMembers(m, keys);
      MembersFirst(m, keys);
      assert ("{" + body + rest)[1..] == body + rest;
      assert ("{" + body + rest)[1] == body[0] == '"';
    }
  }

  lemma MembersFirst(m: Meta, keys: seq<string>)
    requires keys != [] && forall k :: k in keys ==> k in m
    ensures EncodeMembers(m, keys) != "" && EncodeMembers(m, keys)[0] == '"'
  {
  }

  lemma EntriesAll(m: Meta, keys: seq<string>)
    requires forall k :: k in keys <==> k in m
    ensures Entries(m, keys, map[]) == m
  {
    var r := Entries(m, keys, map[]);
    forall k ensures (k in r <==> k in m) && (k in r && k in m ==> r[k] == m[k]) {
      EntriesAt(m, keys, map[], k);
    }
  }

  /** The parser reads back exactly what the encoder printed. */
  lemma MetaBack(m: Meta)
    ensures ParseMeta(EncodeMeta(m)) == Some(m)
  {
    hide ParseValue, EncodeMeta;
    ObjectBack(m, "");
    assert EncodeMeta(m) + "" == EncodeMeta(m);
  }

  // ----- What is never printed -----

  predicate NoGreater(s: string) {
    forall i :: 0 <= i < |s| ==> s[i] != '>'
  }

  lemma {:induction false} CharsNoGreater(s: string)
    ensures NoGreater(EncodeChars(s))
  {
    if s != "" {
      CharsNoGreater(s[1..]);
      CharNoGreater(s[0]);
    }
  }

  lemma CharNoGreater(c: char)
    ensures NoGreater(EncodeChar(c))
  {
  }

  lemma {:induction false} ValueNoGreater(v: Value)
    ensures NoGreater(EncodeValue(v))
    decreases v, 3
  {
    hide JsonNumber, EncodeItems, EncodeMeta, EncodeChars;
    match v
    case Null =>
    case Bool(_) =>
    case Num(n) => CharsOfNumber(n);
    case Str(s) => CharsNoGreater(s);
    case List(items) =>
      if items != [] {
        ItemsNoGreater(items);
      }
    case Object(members) => ObjectNoGreater(members);
  }

  lemma {:induction false} ItemsNoGreater(items: seq<Value>)
    requires items != []
    ensures NoGreater(EncodeItems(items))
    decreases items
  {
    hide EncodeValue;
    ValueNoGreater(items[0]);
    if |items| > 1 {
      ItemsNoGreater(items[1..]);
    }
  }

  lemma {:induction false} MembersNoGreater(m: Meta, keys: seq<string>)
    requires keys != [] && forall k :: k in keys ==> k in m
    ensures NoGreater(EncodeMembers(m, keys))
    ensures EncodeMembers(m, keys) != "" && EncodeMembers(m, keys)[|EncodeMembers(m, keys)| - 1] == '}'
    decreases Object(m), 1, |keys|
  {
    hide EncodeValue, EncodeChars;
    CharsNoGreater(keys[0]);
    ValueNoGreater(m[keys[0]]);
    if |keys| > 1 {
      MembersNoGreater(m, keys[1..]);
    }
  }

  lemma {:induction false} ObjectNoGreater(m: Meta)
    ensures NoGreater(EncodeMeta(m))
    ensures |EncodeMeta(m)| >= 2 && EncodeMeta(m)[0] == '{' && EncodeMeta(m)[|EncodeMeta(m)| - 1] == '}'
    decreases Object(m), 2
  {
    if m != map[] {
      assert m.Keys != {};
      MembersNoGreater(m, SortedNames(m.Keys));
    }
  }

  /** The encoder never prints the character that closes an HTML comment. */
  lemma MetaNoGreater(m: Meta)
    ensures NoGreater(EncodeMeta(m))
    ensures |EncodeMeta(m)| >= 2 && EncodeMeta(m)[0] == '{' && EncodeMeta(m)[|EncodeMeta(m)| - 1] == '}'
  {
    ObjectNoGreater(m);
  }
}
