/** What an edit does to a memory file, told in the patch objects and in the text of the file. */
module MemoryLaws {
  import opened Prelude
  import opened Strings
  import opened Numbers
  import opened JsonText
  import opened MemoryFields

  // ----- Patches of a text -----

  /** An object that gives `items` as its blocks. */
  predicate HasBlocks(patch: Value, items: seq<Value>) {
    patch.Object? && "blocks" in patch.members && patch.members["blocks"] == List(items)
  }

  /** The text that an object has under a name; the empty text when it has none. */
  predicate Says(item: Value, name: string, text: string) {
    item.Object? && text == if name in item.members && item.members[name].Str? then item.members[name].s else ""
  }

  /** `x` occurs in the text at position `i`. */
  predicate Occurs(text: string, x: string, i: nat) {
    i + |x| <= |text| && text[i..i + |x|] == x
  }

  lemma {:induction false} BlocksJoin(xs: seq<Value>, ys: seq<Value>)
    ensures BlocksOf(xs + ys) == BlocksOf(xs) + BlocksOf(ys)
    decreases |ys|
  {
    if ys == [] {
      assert xs + ys == xs;
    } else {
      var last := |ys| - 1;
      BlocksJoin(xs, ys[..last]);
      assert (xs + ys)[..|xs + ys| - 1] == xs + ys[..last];
    }
  }

  lemma {:induction false} ApplyJoin(s: string, xs: seq<Block>, ys: seq<Block>)
    ensures ApplyBlocks(s, xs + ys) == ApplyBlocks(ApplyBlocks(s, xs), ys)
    decreases |ys|
  {
    hide ApplyBlock;
    if ys == [] {
      assert xs + ys == xs;
    } else {
      var last := |ys| - 1;
      ApplyJoin(s, xs, ys[..last]);
      assert (xs + ys)[..|xs + ys| - 1] == xs + ys[..last];
    }
  }

  /** The blocks of one list after those of another are the one patch after the other. */
  lemma PatchesJoin(text: string, patch: Value, xs: seq<Value>, ys: seq<Value>, first: Value, second: Value)
    requires HasBlocks(patch, xs + ys) && HasBlocks(first, xs) && HasBlocks(second, ys)
    ensures ApplyPatch(true, Str(text), patch) == ApplyPatch(true, ApplyPatch(true, Str(text), first), second)
  {
    BlocksJoin(xs, ys);
    ApplyJoin(text, BlocksOf(xs), BlocksOf(ys));
  }

  lemma PatchIs(text: string, patch: Value, items: seq<Value>)
    requires HasBlocks(patch, items)
    ensures ApplyPatch(true, Str(text), patch) == Str(ApplyBlocks(text, BlocksOf(items)))
  {
    hide ApplyBlocks, BlocksOf, Printed;
  }

  /** An empty list changes nothing, and neither does an item that is no object. */
  lemma NoBlocks(text: string, patch: Value, items: seq<Value>)
    requires HasBlocks(patch, items) && (items == [] || (|items| == 1 && !items[0].Object?))
    ensures ApplyPatch(true, Str(text), patch) == Str(text)
  {
    PatchIs(text, patch, items);
    hide ApplyPatch;
    if items != [] {
      assert items[..|items| - 1] == [];
    }
    assert BlocksOf(items) == [];
  }

  lemma OneBlock(text: string, patch: Value, item: Value, x: string, y: string)
    requires HasBlocks(patch, [item]) && Says(item, "search", x) && Says(item, "replace", y)
    ensures ApplyPatch(true, Str(text), patch) == Str(ApplyBlock(text, Block(x, y)))
  {
    PatchIs(text, patch, [item]);
    hide ApplyPatch, ApplyBlock;
    var items, blocks := [item], [Block(x, y)];
    assert items[..|items| - 1] == [] && BlocksOf(items) == blocks;
    assert blocks[..|blocks| - 1] == [];
  }

  /** A block replaces the first occurrence of its search text, and nothing else. */
  lemma BlockReplaces(before: string, x: string, after: string, y: string, patch: Value, item: Value)
    requires HasBlocks(patch, [item]) && Says(item, "search", x) && Says(item, "replace", y)
    requires x != "" && forall i: nat :: i < |before| ==> !Occurs(before + x + after, x, i)
    ensures ApplyPatch(true, Str(before + x + after), patch) == Str(before + y + after)
  {
    hide ApplyPatch, ApplyBlock;
    OneBlock(before + x + after, patch, item, x, y);
    forall i: nat | i < |before| ensures !OccursAt(before + x + after, x, i) {
      assert !Occurs(before + x + after, x, i);
    }
    BlockReplacesFirst(before, Block(x, y), after);
  }

  /** A block whose search text does not occur changes nothing. */
  lemma BlockMisses(text: string, x: string, y: string, patch: Value, item: Value)
    requires HasBlocks(patch, [item]) && Says(item, "search", x) && Says(item, "replace", y)
    requires forall i: nat :: !Occurs(text, x, i)
    ensures ApplyPatch(true, Str(text), patch) == Str(text)
  {
    hide ApplyPatch;
    OneBlock(text, patch, item, x, y);
    assert x != "" by { assert !Occurs(text, x, 0); }
    IndexExactly(text, x);
    forall i: nat ensures !OccursAt(text, x, i) {
      assert !Occurs(text, x, i);
    }
  }

  /** Without a search text the replacement becomes a new last line. */
  lemma BlockAdds(text: string, y: string, patch: Value, item: Value)
    requires HasBlocks(patch, [item]) && Says(item, "search", "") && Says(item, "replace", y)
    ensures ApplyPatch(true, Str(text), patch) == Str(if text == "" then y else text + "\n" + y)
  {
    hide ApplyPatch;
    OneBlock(text, patch, item, "", y);
  }

  /** The other patches: null and the empty text keep the text, any other value replaces it by what it prints as; what is
      no text yet counts as empty. A field that is no text takes every patch as its value. */
  lemma OtherPatches(current: Value, text: string, patch: Value)
    requires current == Str(text) || (!current.Str? && text == "")
    ensures ApplyPatch(false, current, patch) == patch
    ensures ApplyPatch(true, current, patch) == ApplyPatch(true, Str(text), patch)
    ensures patch == Null || patch == Str("") ==> ApplyPatch(true, current, patch) == Str(text)
    ensures patch.Str? && patch.s != "" ==> ApplyPatch(true, current, patch) == patch
    ensures patch == Bool(true) ==> ApplyPatch(true, current, patch) == Str("true")
    ensures patch == Bool(false) ==> ApplyPatch(true, current, patch) == Str("false")
    ensures patch.Num? || patch.List? || (patch.Object? && forall items :: !HasBlocks(patch, items)) ==>
              ApplyPatch(true, current, patch) == Str(Printed(patch))
  {
    if patch.Object? && "blocks" in patch.members && patch.members["blocks"].List? {
      assert HasBlocks(patch, patch.members["blocks"].items);
    }
  }

  /** A value that counts as the number `n`: the number itself, or a text that spells it. */
  predicate CountsAs(v: Value, n: Number) {
    v == Num(n) || (v.Str? && ParseFloat(v.s) == Some(n))
  }

  /** A sum field adds two values that count as numbers, takes the patch when it had nothing, and keeps what it has when the
      patch is null or empty or one of the two does not count. */
  lemma SumTold(isString: bool, current: Value, patch: Value, m: Number, n: Number)
    ensures var sum := Merge(Field(Sum, isString), current, patch);
            && (CountsAs(current, m) && CountsAs(patch, n) ==> sum.Num? && Amount(sum.n) == Amount(m) + Amount(n))
            && (current == Null && patch != Str("") ==> sum == patch)
            && (patch == Null || patch == Str("") ==> sum == current)
            && (current != Null && (forall x :: !CountsAs(current, x)) ==> sum == current)
            && (current != Null && (forall x :: !CountsAs(patch, x)) ==> sum == current)
  {
    hide ParseFloat, Add, Amount, ApplyPatch;
    EmptyIsNoNumber(current);
    EmptyIsNoNumber(patch);
    if CountsAs(current, m) && CountsAs(patch, n) { AddExact(m, n); }
    if Numeric(current).Some? { assert CountsAs(current, Numeric(current).value); }
    if Numeric(patch).Some? { assert CountsAs(patch, Numeric(patch).value); }
  }

  // ----- Printed lists and objects -----

  lemma {:induction false} PrintedSnoc(xs: seq<Value>, y: Value)
    requires xs != []
    ensures PrintedItems(xs + [y]) == PrintedItems(xs) + " " + Printed(y)
    decreases |xs|
  {
    hide Printed;
    assert (xs + [y])[1..] == xs[1..] + [y];
    if |xs| == 1 {
      assert xs[1..] + [y] == [y];
    } else {
      PrintedSnoc(xs[1..], y);
    }
  }

  /** Lists print in brackets with single spaces. */
  lemma PrintedList(xs: seq<Value>, y: Value)
    ensures Printed(List([])) == "[]" && Printed(List([y])) == "[" + Printed(y) + "]"
    ensures xs != [] ==> Printed(List(xs + [y])) == Printed(List(xs))[..|Printed(List(xs))| - 1] + " " + Printed(y) + "]"
  {
    if xs != [] {
      PrintedSnoc(xs, y);
    }
  }

  lemma MembersUnfold(m: Meta, keys: seq<string>)
    requires |keys| > 1 && forall x :: x in keys ==> x in m
    ensures PrintedMembers(m, keys) == keys[0] + ":" + Printed(m[keys[0]]) + (" " + PrintedMembers(m, keys[1..]))
  {
    hide Printed;
  }

  lemma {:induction false} PrintedMembersSnoc(m: Meta, m': Meta, keys: seq<string>, k: string)
    requires keys != [] && k in m && forall x :: x in keys ==> x in m && x in m' && m[x] == m'[x]
    ensures PrintedMembers(m, keys + [k]) == PrintedMembers(m', keys) + (" " + k + ":" + Printed(m[k]))
    decreases |keys|
  {
    hide Printed, PrintedMembers;
    MembersUnfold(m, keys + [k]);
    assert (keys + [k])[1..] == keys[1..] + [k];
    SingleMember(m, k);
    if |keys| == 1 {
      assert keys[1..] == [];
      assert keys == [] + [keys[0]];
      SingleMember(m', keys[0]);
    } else {
      MembersUnfold(m', keys);
      PrintedMembersSnoc(m, m', keys[1..], k);
    }
  }

  /** Objects print as maps, the member whose name is last in byte order at the end. */
  lemma PrintedObject(m: Meta, k: string)
    requires k in m && IsLast(m.Keys, k) && m - {k} != map[]
    ensures var front := Printed(Object(m - {k}));
            Printed(Object(m)) == front[..|front| - 1] + " " + k + ":" + Printed(m[k]) + "]"
  {
    hide IsLast, Printed, PrintedMembers, SortedNames;
    var rest := m - {k};
    assert rest.Keys == m.Keys - {k};
    assert rest.Keys != {};
    SortedByLast(m.Keys, k);
    ObjectPrints(m);
    ObjectPrints(rest);
    PrintedMembersSnoc(m, rest, SortedNames(rest.Keys), k);
    var inner := PrintedMembers(rest, SortedNames(rest.Keys));
    BeforeBracket(inner);
    Grouped(inner, k, Printed(m[k]));
  }

  lemma BeforeBracket(inner: string)
    ensures var s := "map[" + inner + "]"; s[..|s| - 1] == "map[" + inner
  {
  }

  lemma Grouped(inner: string, k: string, v: string)
    ensures "map[" + (inner + (" " + k + ":" + v)) + "]" == "map[" + inner + " " + k + ":" + v + "]"
  {
  }

  lemma PrintedSmall(k: string, v: Value)
    ensures Printed(Object(map[])) == "map[]"
    ensures Printed(Object(map[k := v])) == "map[" + k + ":" + Printed(v) + "]"
  {
    hide Printed, PrintedMembers;
    var m := map[k := v];
    ObjectPrints(m);
    assert m.Keys == {k};
    SingleSorted(k);
    SingleMember(m, k);
    assert [] + [k] == [k];
  }

  lemma ObjectPrints(m: Meta)
    ensures Printed(Object(map[])) == "map[]"
    ensures Printed(Object(m)) == "map[" + PrintedMembers(m, SortedNames(m.Keys)) + "]"
  {
    hide PrintedMembers;
    NoMembers(map[]);
  }

  lemma NoMembers(m: Meta)
    ensures PrintedMembers(m, []) == ""
  {
  }

  lemma SingleMember(m: Meta, k: string)
    requires k in m
    ensures PrintedMembers(m, [] + [k]) == k + ":" + Printed(m[k])
  {
    assert [] + [k] == [k];
  }

  // ----- The file -----

  /** The fields stand in one comment before the content; without fields the file is the content. */
  lemma FileText(content: string, meta: Meta)
    ensures Serialize(content, meta) == if meta == map[] then content else "<!-- MEMORY_FIELDS " + EncodeMeta(meta) + " -->\n" + content
  {
    hide EncodeMeta;
    if meta != map[] { MetaHasSize(meta); }
    var json := EncodeMeta(meta);
    assert "<!-- MEMORY_FIELDS" + " " == "<!-- MEMORY_FIELDS ";
    assert MARKER + " " + json + " " + MARKER_END + "\n" + content == "<!-- MEMORY_FIELDS" + " " + json + " -->\n" + content;
  }

  /** Reading: such a comment gives the fields, and any other text is content. */
  lemma TextRead(content: string, meta: Meta)
    ensures meta != map[] ==> Deserialize("<!-- MEMORY_FIELDS " + EncodeMeta(meta) + " -->\n" + content) == Memory(content, meta)
    ensures !("<!-- MEMORY_FIELDS" <= content) ==> Deserialize(content) == Memory(content, map[])
    ensures (forall i: nat :: !Occurs(content, "-->", i)) ==> Deserialize(content) == Memory(content, map[])
  {
    if meta != map[] {
      RoundTrip(content, meta);
      FileText(content, meta);
    }
    if forall i: nat :: !Occurs(content, "-->", i) {
      IndexExactly(content, "-->");
      forall i: nat ensures !OccursAt(content, "-->", i) {
        assert !Occurs(content, "-->", i);
      }
    }
  }

  /** Blanks, tabs, line ends and the other white space of Unicode. */
  predicate Blank(s: string) {
    forall i :: 0 <= i < |s| ==>
      s[i] in [' ', '\t', '\n', '\r'] || s[i] as int in {0x0B, 0x0C, 0x85, 0xA0, 0x1680, 0x2028, 0x2029, 0x202F, 0x205F, 0x3000}
      || 0x2000 <= s[i] as int <= 0x200A
  }

  lemma {:induction false} BlankBefore(pre: string, s: string)
    requires Blank(pre) && s != "" && !Blank([s[0]])
    ensures TrimLeft(pre + s) == s
  {
    if pre == "" {
      assert pre + s == s;
      assert [s[0]][0] == s[0];
    } else {
      assert (pre + s)[1..] == pre[1..] + s;
      BlankBefore(pre[1..], s);
    }
  }

  lemma {:induction false} BlankBehind(s: string, post: string)
    requires Blank(post) && s != "" && !Blank([s[|s| - 1]])
    ensures TrimRight(s + post) == s
    decreases |post|
  {
    if post == "" {
      assert s + post == s;
      assert [s[|s| - 1]][0] == s[|s| - 1];
    } else {
      assert (s + post)[..|s + post| - 1] == s + post[..|post| - 1];
      BlankBehind(s, post[..|post| - 1]);
    }
  }

  /** A header is read whatever white space stands around its object, and one line end behind it is dropped; a header that
      is no object gives no fields. */
  lemma HeaderRead(pre: string, json: string, post: string, rest: string)
    requires Blank(pre) && Blank(post) && json != "" && !Blank([json[0]]) && !Blank([json[|json| - 1]])
    requires '>' !in pre + json + post
    ensures Deserialize("<!-- MEMORY_FIELDS" + (pre + json + post) + "-->" + rest) ==
            Memory(if rest != "" && rest[0] == '\n' then rest[1..] else rest,
                   if ParseMeta(json).Some? then ParseMeta(json).value else map[])
  {
    hide ParseMeta, Deserialize, TrimLeft, TrimRight;
    var middle := pre + json + post;
    assert pre + (json + post) == middle;
    assert (json + post)[0] == json[0];
    BlankBefore(pre, json + post);
    BlankBehind(json, post);
    HeaderBack(middle, rest);
  }

  /** A new file has the given content and, of the given fields, those of the schema; without a registry or a memory type
      all of them but the content. */
  lemma WrittenReadsBack(registry: Option<Registry>, memoryType: string, content: string, fields: Meta)
    requires registry.Some? && memoryType != "" ==> memoryType in registry.value
    ensures var stored := Stored(registry, memoryType, fields);
            && (stored != map[] ==> Deserialize(Serialize(content, stored)) == Memory(content, stored))
            && (forall k :: k in stored <==>
                  k in fields && if registry.Some? && memoryType != "" then k in registry.value[memoryType] else k != "content")
            && (forall k :: k in stored ==> stored[k] == fields[k])
  {
    if Stored(registry, memoryType, fields) != map[] {
      RoundTrip(content, Stored(registry, memoryType, fields));
    }
  }

  /** An edit of one text field by one block: the file reads back with that field changed and everything else as it was. */
  lemma FieldEdited(schema: Schema, full: string, fields: Meta, k: string, before: string, x: string, after: string, y: string,
                    patch: Value, item: Value)
    requires k != "content" && k in schema && schema[k] == Field(Patch, true)
    requires k in Deserialize(full).meta && Deserialize(full).meta[k] == Str(before + x + after)
    requires fields == map[k := patch]
    requires HasBlocks(patch, [item]) && Says(item, "search", x) && Says(item, "replace", y)
    requires x != "" && forall i: nat :: i < |before| ==> !Occurs(before + x + after, x, i)
    ensures var m, m' := Deserialize(full), Edit(schema, Deserialize(full), fields);
            Deserialize(Serialize(m'.content, m'.meta)) == Memory(m.content, m.meta[k := Str(before + y + after)])
  {
    hide Deserialize, Serialize, ApplyPatch, HasBlocks, Says;
    var m := Deserialize(full);
    BlockReplaces(before, x, after, y, patch, item);
    var m' := Edit(schema, m, fields);
    assert m'.meta == m.meta[k := Str(before + y + after)];
    RoundTrip(m'.content, m'.meta);
  }

  /** An edit of the content by one block, whether the schema lists the content as a text or not at all: the file has its
      fields and then the edited content. */
  lemma ContentEdited(schema: Schema, full: string, fields: Meta, before: string, x: string, after: string, y: string,
                      patch: Value, item: Value)
    requires "content" in schema ==> schema["content"] == Field(Patch, true)
    requires Deserialize(full).content == before + x + after && fields == map["content" := patch]
    requires HasBlocks(patch, [item]) && Says(item, "search", x) && Says(item, "replace", y)
    requires x != "" && forall i: nat :: i < |before| ==> !Occurs(before + x + after, x, i)
    ensures var m, m' := Deserialize(full), Edit(schema, Deserialize(full), fields);
            Serialize(m'.content, m'.meta) ==
              (if m.meta == map[] then "" else "<!-- MEMORY_FIELDS " + EncodeMeta(m.meta) + " -->\n") + (before + y + after)
  {
    hide Deserialize, Serialize, ApplyPatch, HasBlocks, Says, EncodeMeta;
    var m := Deserialize(full);
    BlockReplaces(before, x, after, y, patch, item);
    var m' := Edit(schema, m, fields);
    assert m'.content == before + y + after;
    assert m'.meta == m.meta;
    FileText(m'.content, m'.meta);
  }

  /** Every field of an edit at once: a field that the schema does not list or the edit does not name is as it was; the
      others are merged with what they had, null if nothing, by the operator of the schema. */
  lemma FieldsEdited(schema: Schema, m: Memory, fields: Meta, k: string)
    requires k != "content"
    ensures var m' := Edit(schema, m, fields);
            var current := if k in m.meta then m.meta[k] else Null;
            if k in schema && k in fields then
              && k in m'.meta
              && (schema[k].op == Patch ==> m'.meta[k] == ApplyPatch(schema[k].isString, current, fields[k]))
              && (schema[k].op == Immutable ==> m'.meta[k] == if current == Null || current == Str("") then fields[k] else current)
              && (schema[k].op == Sum && (fields[k] == Null || fields[k] == Str("")) ==> m'.meta[k] == current)
              && (schema[k].op == Sum && current == Null && fields[k] != Str("") ==> m'.meta[k] == fields[k])
            else (k in m'.meta <==> k in m.meta) && (k in m.meta ==> m'.meta[k] == m.meta[k])
  {
    hide ApplyPatch;
  }

  /** The content of an edit: untouched unless the edit names it, a text patch where the schema does not list it. */
  lemma ContentKept(schema: Schema, m: Memory, fields: Meta)
    ensures "content" !in fields ==> Edit(schema, m, fields).content == m.content
    ensures "content" in fields && ("content" !in schema || schema["content"] == Field(Patch, true)) ==>
              Str(Edit(schema, m, fields).content) == ApplyPatch(true, Str(m.content), fields["content"])
    ensures "content" in fields && "content" in schema && schema["content"].op == Immutable && m.content != "" ==>
              Edit(schema, m, fields).content == m.content
  {
    hide BlocksOf, ApplyBlocks, Printed;
  }
}
