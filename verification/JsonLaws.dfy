/** The text that the encoder writes, value by value and character by character. */
module JsonLaws {
  import opened Prelude
  import opened Strings
  import opened Numbers
  import opened JsonText

  // ----- Strings -----

  /** `h` is the hexadecimal digit of `d`. */
  ghost predicate IsHex(d: nat, h: char) {
    d < 16 && h == "0123456789abcdef"[d]
  }

  /** A code unit in four hexadecimal digits. */
  ghost predicate IsCode(c: char, r: string) {
    exists p: nat, q: nat, x: nat, y: nat ::
      && p < 16 && q < 16 && x < 16 && y < 16 && c as int == 4096 * p + 256 * q + 16 * x + y
      && |r| == 6 && r[0] == '\\' && r[1] == 'u' && IsHex(p, r[2]) && IsHex(q, r[3]) && IsHex(x, r[4]) && IsHex(y, r[5])
  }

  /** Quotes and backslashes get a backslash; line ends, tabs, backspaces and form feeds their letters; the other control
      characters, the characters of HTML and the two Unicode line separators a code; nothing else changes. */
  lemma CharWritten(c: char)
    ensures EncodeChar('"') == "\\\"" && EncodeChar('\\') == "\\\\"
    ensures EncodeChar('\n') == "\\n" && EncodeChar('\r') == "\\r" && EncodeChar('\t') == "\\t"
    ensures EncodeChar(8 as char) == "\\b" && EncodeChar(12 as char) == "\\f"
    ensures EncodeChar('<') == "\\u003c" && EncodeChar('>') == "\\u003e" && EncodeChar('&') == "\\u0026"
    ensures EncodeChar(0x2028 as char) == "\\u2028" && EncodeChar(0x2029 as char) == "\\u2029"
    ensures c < ' ' && c !in ['\n', '\r', '\t'] && c as int != 8 && c as int != 12 ==> IsCode(c, EncodeChar(c))
    ensures c >= ' ' && c !in ['"', '\\', '<', '>', '&'] && c as int != 0x2028 && c as int != 0x2029 ==> EncodeChar(c) == [c]
  {
    if c < ' ' {
      CodeWritten(c);
    }
  }

  lemma CodeWritten(c: char)
    requires c < ' '
    ensures IsCode(c, Unicode(c as int))
  {
    var n := c as int;
    var p, q, x, y := n / 4096, n / 256 % 16, n / 16 % 16, n % 16;
    HexDigits(n);
    assert IsHex(p, Hex(p)) && IsHex(q, Hex(q)) && IsHex(x, Hex(x)) && IsHex(y, Hex(y));
    var r := Unicode(n);
    assert |r| == 6 && r[2] == Hex(p) && r[3] == Hex(q) && r[4] == Hex(x) && r[5] == Hex(y);
  }

  lemma {:induction false} CharsJoin(a: string, b: string)
    ensures EncodeChars(a + b) == EncodeChars(a) + EncodeChars(b)
  {
    hide EncodeChar;
    if a == "" {
      assert a + b == b;
    } else {
      assert (a + b)[1..] == a[1..] + b;
      CharsJoin(a[1..], b);
    }
  }

  /** A string stands in quotes, each character written by itself. */
  lemma StringWritten(s: string, c: char)
    ensures EncodeString("") == "\"\""
    ensures var front := EncodeString(s); EncodeString(s + [c]) == front[..|front| - 1] + EncodeChar(c) + "\""
  {
    hide EncodeChar;
    CharsJoin(s, [c]);
    assert [c][1..] == "";
    assert EncodeChars([c]) == EncodeChar(c) + "";
  }

  // ----- Values -----

  lemma AtomsWritten(n: Number, s: string)
    ensures EncodeValue(Null) == "null" && EncodeValue(Bool(true)) == "true" && EncodeValue(Bool(false)) == "false"
    ensures EncodeValue(Num(n)) == JsonNumber(n) && EncodeValue(Str(s)) == EncodeString(s)
  {
    hide JsonNumber, EncodeString;
  }

  lemma {:induction false} ItemsSnoc(xs: seq<Value>, y: Value)
    requires xs != []
    ensures var front := EncodeItems(xs);
            front != "" && EncodeItems(xs + [y]) == front[..|front| - 1] + ("," + EncodeValue(y) + "]")
    decreases |xs|
  {
    hide EncodeValue;
    assert (xs + [y])[1..] == xs[1..] + [y];
    if |xs| == 1 {
      assert xs[1..] + [y] == [y];
    } else {
      ItemsSnoc(xs[1..], y);
    }
  }

  /** Lists in brackets, with commas and no spaces. */
  lemma ListWritten(xs: seq<Value>, y: Value)
    ensures EncodeValue(List([])) == "[]" && EncodeValue(List([y])) == "[" + EncodeValue(y) + "]"
    ensures xs != [] ==>
              var front := EncodeValue(List(xs)); EncodeValue(List(xs + [y])) == front[..|front| - 1] + ("," + EncodeValue(y) + "]")
  {
    if xs != [] {
      ItemsSnoc(xs, y);
    }
  }

  lemma MembersUnfold(m: Meta, keys: seq<string>)
    requires |keys| > 1 && forall x :: x in keys ==> x in m
    ensures EncodeMembers(m, keys) == EncodeMember(m, keys[0]) + ("," + EncodeMembers(m, keys[1..]))
  {
    hide EncodeMember;
  }

  lemma SingleMember(m: Meta, k: string)
    requires k in m
    ensures EncodeMembers(m, [k]) == EncodeString(k) + ":" + EncodeValue(m[k]) + "}"
  {
    hide EncodeValue, EncodeString;
  }

  lemma SameMember(m: Meta, m': Meta, k: string)
    requires k in m && k in m' && m[k] == m'[k]
    ensures EncodeMember(m, k) == EncodeMember(m', k)
  {
    hide EncodeValue, EncodeString;
  }

  lemma {:induction false} MembersSnoc(m: Meta, m': Meta, keys: seq<string>, k: string)
    requires keys != [] && k in m && forall x :: x in keys ==> x in m && x in m' && m[x] == m'[x]
    ensures var front := EncodeMembers(m', keys);
            && front != ""
            && EncodeMembers(m, keys + [k]) == front[..|front| - 1] + ("," + EncodeString(k) + ":" + EncodeValue(m[k]) + "}")
    decreases |keys|
  {
    hide EncodeValue, EncodeString, EncodeMember, EncodeMembers;
    MembersUnfold(m, keys + [k]);
    assert (keys + [k])[1..] == keys[1..] + [k];
    SingleMember(m, k);
    SameMember(m, m', keys[0]);
    if |keys| == 1 {
      assert keys[1..] + [k] == [k] && keys == [keys[0]];
      SingleMember(m', keys[0]);
      OneMember(m, keys[0]);
    } else {
      MembersUnfold(m', keys);
      MembersSnoc(m, m', keys[1..], k);
    }
  }

  lemma OneMember(m: Meta, k: string)
    requires k in m
    ensures EncodeMember(m, k) == EncodeString(k) + ":" + EncodeValue(m[k])
  {
    hide EncodeValue, EncodeString;
  }

  /** Objects in braces, the members in byte order of their names. */
  lemma ObjectWritten(m: Meta, k: string)
    requires k in m && IsLast(m.Keys, k) && m - {k} != map[]
    ensures var front := EncodeMeta(m - {k});
            EncodeMeta(m) == front[..|front| - 1] + ("," + EncodeString(k) + ":" + EncodeValue(m[k]) + "}")
  {
    hide IsLast, EncodeMembers, SortedNames, EncodeValue, EncodeString;
    var rest := m - {k};
    assert rest.Keys == m.Keys - {k};
    assert rest.Keys != {};
    SortedByLast(m.Keys, k);
    MembersSnoc(m, rest, SortedNames(rest.Keys), k);
    assert m != map[];
  }

  lemma SmallObjectWritten(k: string, v: Value)
    ensures EncodeMeta(map[]) == "{}" && EncodeValue(Object(map[])) == "{}"
    ensures EncodeMeta(map[k := v]) == "{" + EncodeString(k) + ":" + EncodeValue(v) + "}"
    ensures EncodeValue(Object(map[k := v])) == EncodeMeta(map[k := v])
  {
    hide EncodeMembers, EncodeValue, EncodeString;
    var m := map[k := v];
    assert m.Keys == {k};
    assert m != map[];
    SingleSorted(k);
    SingleMember(m, k);
    ObjectIsMeta(map[]);
    ObjectIsMeta(m);
  }

  lemma ObjectIsMeta(m: Meta)
    ensures EncodeValue(Object(m)) == EncodeMeta(m)
  {
    hide EncodeMeta;
  }
}
