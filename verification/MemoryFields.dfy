/** Memory files: a comment of typed fields before the content, and edits that merge fields into it. */
module MemoryFields {
  import opened Prelude
  import opened Strings
  import opened Numbers
  import opened JsonText

  const MARKER := "<!-- MEMORY_FIELDS"
  const MARKER_END := "-->"

  ghost function Serialize(content: string, meta: Meta): string {
    if |meta| == 0 then content else MARKER + " " + EncodeMeta(meta) + " " + MARKER_END + "\n" + content
  }

  /** strings.Index: the first position of `sub`. */
  function IndexOf(s: string, sub: string): (r: Option<nat>)
    ensures r.Some? ==> r.value + |sub| <= |s| && s[r.value..r.value + |sub|] == sub
  {
    if HasPrefix(s, sub) then Some(0)
    else if s == "" then None
    else
      var r := IndexOf(s[1..], sub);
      if r.None? then None
      else
        TailSlice(s, r.value, |sub|);
        Some(r.value + 1)
  }

  lemma TailSlice(s: string, i: nat, n: nat)
    requires s != "" && i + n < |s|
    ensures s[i + 1..i + 1 + n] == s[1..][i..i + n]
  {
    var a, b := s[i + 1..i + 1 + n], s[1..][i..i + n];
    forall k | 0 <= k < n ensures a[k] == b[k] {
      assert s[1..][i + k] == s[i + 1 + k];
    }
  }

  /** White space as strings.TrimSpace sees it. */
  predicate IsSpace(c: char) {
    var n := c as int;
    9 <= n <= 13 || n == 32 || n == 0x85 || n == 0xA0 || n == 0x1680 || 0x2000 <= n <= 0x200A
    || n == 0x2028 || n == 0x2029 || n == 0x202F || n == 0x205F || n == 0x3000
  }

  function TrimLeft(s: string): string {
    if s != "" && IsSpace(s[0]) then TrimLeft(s[1..]) else s
  }

  function TrimRight(s: string): string {
    if s != "" && IsSpace(s[|s| - 1]) then TrimRight(s[..|s| - 1]) else s
  }

  function TrimNewline(s: string): string {
    if s != "" && s[0] == '\n' then s[1..] else s
  }

  datatype Memory = Memory(content: string, meta: Meta)

  /** The closing mark cannot begin inside the opening one. */
  lemma EndAfterMarker(full: string, e: nat)
    requires HasPrefix(full, MARKER) && e + 3 <= |full| && full[e..e + 3] == MARKER_END
    ensures e >= |MARKER|
  {
    assert full[e..e + 3][0] == full[e] == '-' && full[e..e + 3][2] == full[e + 2] == '>';
    assert forall i :: 0 <= i < |MARKER| ==> full[i] == MARKER[i];
    assert forall i :: 0 <= i < |MARKER| ==> MARKER[i] != '>';
    assert MARKER[16] == 'D' && MARKER[17] == 'S' && |MARKER| == 18;
  }

  /** Text without a complete header is content; a header that is no object counts as having no fields. */
  function Deserialize(full: string): Memory {
    if !HasPrefix(full, MARKER) then Memory(full, map[])
    else
      var end := IndexOf(full, MARKER_END);
      if end.None? then Memory(full, map[])
      else
        EndAfterMarker(full, end.value);
        var json := TrimRight(TrimLeft(full[|MARKER|..end.value]));
        var rest := full[end.value + |MARKER_END|..];
        var meta := ParseMeta(json);
        Memory(TrimNewline(rest), if meta.Some? then meta.value else map[])
  }

  lemma {:induction false} FirstEnd(pre: string, rest: string)
    requires NoGreater(pre)
    ensures IndexOf(pre + MARKER_END + rest, MARKER_END) == Some(|pre|)
  {
    var s := pre + MARKER_END + rest;
    if pre == "" {
      assert s == MARKER_END + rest;
      assert s[..3] == MARKER_END;
    } else {
      assert s[1..] == pre[1..] + MARKER_END + rest;
      FirstEnd(pre[1..], rest);
      NotYet(pre, rest);
    }
  }

  lemma NotYet(pre: string, rest: string)
    requires pre != "" && NoGreater(pre)
    ensures !HasPrefix(pre + MARKER_END + rest, MARKER_END)
  {
    var s := pre + MARKER_END + rest;
    assert s[2] == if |pre| > 2 then pre[2] else MARKER_END[2 - |pre|];
    assert MARKER_END[2] == '>' && MARKER_END[0] == '-' && MARKER_END[1] == '-';
    assert s[2] != '>';
  }

  lemma TrimPadding(json: string)
    requires |json| >= 2 && !IsSpace(json[0]) && !IsSpace(json[|json| - 1])
    ensures TrimRight(TrimLeft(" " + json + " ")) == json
  {
  }

  /** A header whose text holds no closing mark is found and read as a whole. */
  lemma HeaderBack(middle: string, rest: string)
    requires NoGreater(middle)
    ensures var meta := ParseMeta(TrimRight(TrimLeft(middle)));
            Deserialize(MARKER + middle + MARKER_END + rest) == Memory(TrimNewline(rest), if meta.Some? then meta.value else map[])
  {
    hide ParseMeta, TrimLeft, TrimRight, IndexOf;
    MarkerNoGreater();
    FirstEnd(MARKER + middle, rest);
    HeaderParts(middle, rest);
  }

  lemma MarkerNoGreater()
    ensures NoGreater(MARKER)
  {
  }

  /** With at least one field, reading back what was written gives the content and the fields, whatever the content. */
  lemma RoundTrip(content: string, meta: Meta)
    requires meta != map[]
    ensures Deserialize(Serialize(content, meta)) == Memory(content, meta)
  {
    hide ParseMeta, EncodeMeta, Deserialize;
    var json := EncodeMeta(meta);
    MetaNoGreater(meta);
    MetaBack(meta);
    MetaHasSize(meta);
    TrimPadding(json);
    HeaderBack(" " + json + " ", "\n" + content);
    Padded(MARKER, json, content);
    assert ("\n" + content)[1..] == content;
  }

  lemma Padded(marker: string, json: string, content: string)
    ensures marker + " " + json + " " + MARKER_END + "\n" + content ==
            marker + (" " + json + " ") + MARKER_END + ("\n" + content)
  {
  }

  lemma MetaHasSize(meta: Meta)
    requires meta != map[]
    ensures |meta| > 0
  {
  }

  lemma HeaderParts(middle: string, rest: string)
    ensures var full := MARKER + middle + MARKER_END + rest;
            && HasPrefix(full, MARKER)
            && full[|MARKER|..|MARKER + middle|] == middle
            && full[|MARKER + middle| + |MARKER_END|..] == rest
  {
  }

  /** Without fields nothing marks the content, so it must not look like a header itself. */
  lemma EmptyRoundTrip(content: string)
    ensures Deserialize(Serialize(content, map[])) == Memory(content, map[]) <==> !LooksMarked(content)
  {
  }

  predicate LooksMarked(content: string) {
    HasPrefix(content, MARKER) && IndexOf(content, MARKER_END).Some?
  }

  /** The memories that survive being written and read back. */
  predicate Readable(m: Memory) {
    m.meta != map[] || !LooksMarked(m.content)
  }

  lemma ReadsBackExactly(m: Memory)
    ensures Deserialize(Serialize(m.content, m.meta)) == m <==> Readable(m)
  {
    hide Deserialize, Serialize;
    if m.meta != map[] {
      RoundTrip(m.content, m.meta);
    } else {
      EmptyRoundTrip(m.content);
    }
  }

  // ----- Merging fields -----

  datatype MergeOp = Patch | Sum | Immutable

  predicate IsEmpty(v: Value) {
    v == Null || v == Str("")
  }

  /** What counts as a number: numbers, and strings that spell one. */
  function Numeric(v: Value): Option<Number> {
    match v
    case Num(n) => Some(n)
    case Str(s) => ParseFloat(s)
    case Null => None
    case Bool(_) => None
    case List(_) => None
    case Object(_) => None
  }

  /** What a value adds to a total: itself, if it is a number. */
  function Counts(v: Value): real {
    if Numeric(v).Some? then Amount(Numeric(v).value) else 0.0
  }

  /** An absent field reads as null. */
  function Current(meta: Meta, field: string): Value {
    if field in meta then meta[field] else Null
  }

  function ApplySum(current: Value, patch: Value): Value {
    if IsEmpty(patch) then current
    else if current == Null then patch
    else if Numeric(current).Some? && Numeric(patch).Some? then Num(Add(Numeric(current).value, Numeric(patch).value))
    else current
  }

  function ApplyImmutable(current: Value, patch: Value): Value {
    if IsEmpty(current) then patch else current
  }

  /** The value of a field after a run of patches. */
  function AfterSum(start: Value, patches: seq<Value>): Value {
    if patches == [] then start else ApplySum(AfterSum(start, patches[..|patches| - 1]), patches[|patches| - 1])
  }

  function AfterImmutable(start: Value, patches: seq<Value>): Value {
    if patches == [] then start else ApplyImmutable(AfterImmutable(start, patches[..|patches| - 1]), patches[|patches| - 1])
  }

  /** The sum of the patches that are numbers; the others do not count. */
  function Total(patches: seq<Value>): real {
    if patches == [] then 0.0 else Total(patches[..|patches| - 1]) + Counts(patches[|patches| - 1])
  }

  lemma EmptyIsNoNumber(v: Value)
    ensures IsEmpty(v) ==> Numeric(v).None? && Counts(v) == 0.0
    ensures Numeric(v).None? ==> Counts(v) == 0.0
  {
    assert DigitRun("") == "";
  }

  /** The first value that a sum field takes: its own, or the first patch that is not empty. */
  function FirstSet(start: Value, patches: seq<Value>): Value {
    if patches == [] then start
    else
      var first := FirstSet(start, patches[..|patches| - 1]);
      if first == Null && !IsEmpty(patches[|patches| - 1]) then patches[|patches| - 1] else first
  }

  lemma ApplySumExact(current: Value, patch: Value)
    requires Numeric(current).Some?
    ensures Numeric(ApplySum(current, patch)).Some?
    ensures Counts(ApplySum(current, patch)) == Counts(current) + Counts(patch)
  {
    hide ParseFloat, Add, Amount;
    EmptyIsNoNumber(patch);
    EmptyIsNoNumber(current);
    if Numeric(patch).Some? {
      AddExact(Numeric(current).value, Numeric(patch).value);
    }
  }

  /**
   * A sum field is the exact total of its start and its numeric patches when its first value is a number; otherwise it
   * never leaves that first value, whatever is added to it.
   */
  lemma {:induction false} SumExactly(start: Value, patches: seq<Value>)
    ensures var first, now := FirstSet(start, patches), AfterSum(start, patches);
            if Numeric(first).Some? then Numeric(now).Some? && Counts(now) == Counts(start) + Total(patches)
            else now == first && (first == Null ==> Total(patches) == 0.0)
    ensures start != Null ==> FirstSet(start, patches) == start
  {
    hide Numeric, Counts;
    EmptyIsNoNumber(Null);
    if patches != [] {
      var init, last := patches[..|patches| - 1], patches[|patches| - 1];
      SumExactly(start, init);
      EmptyIsNoNumber(last);
      if Numeric(AfterSum(start, init)).Some? {
        ApplySumExact(AfterSum(start, init), last);
      }
    }
  }

  /** A sum field that starts as a number is, after any edits, that number plus all numeric patches. */
  lemma SumIsTotal(start: Value, patches: seq<Value>)
    requires Numeric(start).Some?
    ensures Numeric(AfterSum(start, patches)).Some? && Counts(AfterSum(start, patches)) == Counts(start) + Total(patches)
  {
    SumExactly(start, patches);
  }

  /** An absent sum field takes its first non-empty patch; if that is a number, the rest is added to it. */
  lemma SumFromNothing(patches: seq<Value>, k: nat)
    requires k < |patches| && Numeric(patches[k]).Some?
    requires forall i :: 0 <= i < k ==> IsEmpty(patches[i])
    ensures Numeric(AfterSum(Null, patches)).Some? && Counts(AfterSum(Null, patches)) == Total(patches)
  {
    EmptyIsNoNumber(patches[k]);
    SumExactly(Null, patches);
    FirstSetAt(patches, k);
  }

  lemma {:induction false} FirstSetAt(patches: seq<Value>, k: nat)
    requires k < |patches| && !IsEmpty(patches[k]) && forall i :: 0 <= i < k ==> IsEmpty(patches[i])
    ensures FirstSet(Null, patches) == patches[k]
    decreases |patches|
  {
    var last := |patches| - 1;
    if k < last {
      FirstSetAt(patches[..last], k);
    } else {
      NothingSet(patches[..last]);
    }
  }

  lemma {:induction false} NothingSet(patches: seq<Value>)
    requires forall i :: 0 <= i < |patches| ==> IsEmpty(patches[i])
    ensures FirstSet(Null, patches) == Null
  {
    if patches != [] {
      NothingSet(patches[..|patches| - 1]);
    }
  }

  /** An immutable field keeps its first non-empty value through all later edits. */
  lemma {:induction false} ImmutableKeeps(start: Value, patches: seq<Value>)
    ensures !IsEmpty(start) ==> AfterImmutable(start, patches) == start
  {
    if patches != [] {
      ImmutableKeeps(start, patches[..|patches| - 1]);
    }
  }

  lemma {:induction false} ImmutableTakesFirst(start: Value, patches: seq<Value>, k: nat)
    requires IsEmpty(start) && k < |patches| && !IsEmpty(patches[k])
    requires forall i :: 0 <= i < k ==> IsEmpty(patches[i])
    ensures AfterImmutable(start, patches) == patches[k]
    decreases |patches|
  {
    var last := |patches| - 1;
    if k < last {
      ImmutableTakesFirst(start, patches[..last], k);
    } else {
      StillEmpty(start, patches[..last]);
    }
  }

  lemma {:induction false} StillEmpty(start: Value, patches: seq<Value>)
    requires IsEmpty(start) && forall i :: 0 <= i < |patches| ==> IsEmpty(patches[i])
    ensures IsEmpty(AfterImmutable(start, patches))
  {
    if patches != [] {
      StillEmpty(start, patches[..|patches| - 1]);
    }
  }

  // ----- Edits -----

  datatype Field = Field(op: MergeOp, isString: bool)

  type Schema = map<string, Field>

  function AsString(v: Value): string {
    if v.Str? then v.s else ""
  }

  /** The value as the default format of Go prints it. */
  ghost function Printed(v: Value): string
    decreases v, 2
  {
    match v
    case Null => "<nil>"
    case Bool(b) => if b then "true" else "false"
    case Num(n) => DefaultNumber(n)
    case Str(s) => s
    case List(items) => "[" + PrintedItems(items) + "]"
    case Object(members) => "map[" + PrintedMembers(members, SortedNames(members.Keys)) + "]"
  }

  ghost function PrintedItems(items: seq<Value>): string
    decreases items
  {
    if items == [] then ""
    else if |items| == 1 then Printed(items[0])
    else Printed(items[0]) + " " + PrintedItems(items[1..])
  }

  ghost function PrintedMembers(m: Meta, keys: seq<string>): string
    requires forall k :: k in keys ==> k in m
    decreases Object(m), 1, |keys|
  {
    if keys == [] then ""
    else keys[0] + ":" + Printed(m[keys[0]]) + if |keys| == 1 then "" else " " + PrintedMembers(m, keys[1..])
  }

  // ----- Search and replace -----

  datatype Block = Block(search: string, replace: string)

  function TextField(m: Meta, k: string): string {
    if k in m then AsString(m[k]) else ""
  }

  /** The blocks of a patch; items that are no objects are passed over. */
  function BlocksOf(items: seq<Value>): seq<Block> {
    if items == [] then []
    else
      var last := items[|items| - 1];
      BlocksOf(items[..|items| - 1]) +
      if last.Object? then [Block(TextField(last.members, "search"), TextField(last.members, "replace"))] else []
  }

  /** One block replaces the first occurrence of its search text; without one it adds a line. */
  function ApplyBlock(s: string, b: Block): string {
    if b.search == "" then if s == "" then b.replace else s + "\n" + b.replace
    else
      var i := IndexOf(s, b.search);
      if i.None? then s else s[..i.value] + b.replace + s[i.value + |b.search|..]
  }

  function ApplyBlocks(s: string, blocks: seq<Block>): string {
    if blocks == [] then s else ApplyBlock(ApplyBlocks(s, blocks[..|blocks| - 1]), blocks[|blocks| - 1])
  }

  predicate OccursAt(s: string, sub: string, i: nat) {
    i + |sub| <= |s| && s[i..i + |sub|] == sub
  }

  /** The index is that of the first occurrence, and there is none exactly when there is no occurrence. */
  lemma {:induction false} IndexExactly(s: string, sub: string)
    ensures IndexOf(s, sub).None? <==> forall j: nat :: !OccursAt(s, sub, j)
    ensures IndexOf(s, sub).Some? ==> forall j: nat :: j < IndexOf(s, sub).value ==> !OccursAt(s, sub, j)
  {
    IndexOccurs(s, sub);
    if HasPrefix(s, sub) {
      assert OccursAt(s, sub, 0);
    } else if s == "" {
      assert forall j: nat :: !OccursAt(s, sub, j);
    } else {
      IndexExactly(s[1..], sub);
      hide OccursAt, HasPrefix;
      forall j: nat ensures OccursAt(s, sub, j) <==> j > 0 && OccursAt(s[1..], sub, j - 1) {
        OccursLater(s, sub, j);
      }
    }
  }

  lemma IndexOccurs(s: string, sub: string)
    ensures IndexOf(s, sub).Some? ==> OccursAt(s, sub, IndexOf(s, sub).value)
  {
  }

  /** A text that does not begin with `sub` has its occurrences further on. */
  lemma OccursLater(s: string, sub: string, j: nat)
    requires s != "" && !HasPrefix(s, sub)
    ensures OccursAt(s, sub, j) <==> j > 0 && OccursAt(s[1..], sub, j - 1)
  {
    if j > 0 && j + |sub| <= |s| {
      TailSlice(s, j - 1, |sub|);
    }
  }

  lemma FirstOccurrence(s: string, sub: string, i: nat)
    requires OccursAt(s, sub, i) && forall j: nat :: j < i ==> !OccursAt(s, sub, j)
    ensures IndexOf(s, sub) == Some(i)
  {
    IndexExactly(s, sub);
    assert IndexOf(s, sub).Some? && OccursAt(s, sub, IndexOf(s, sub).value);
  }

  /** Around the first occurrence nothing changes. */
  lemma BlockReplacesFirst(before: string, b: Block, after: string)
    requires b.search != "" && forall j: nat :: j < |before| ==> !OccursAt(before + b.search + after, b.search, j)
    ensures ApplyBlock(before + b.search + after, b) == before + b.replace + after
  {
    hide IndexOf;
    var s := before + b.search + after;
    assert s[|before|..|before| + |b.search|] == b.search;
    FirstOccurrence(s, b.search, |before|);
    assert s[..|before|] == before && s[|before| + |b.search|..] == after;
  }

  /** A block leaves the text as it is exactly when the search text does not occur in it. */
  lemma BlockMissesExactly(s: string, b: Block)
    requires b.search != "" && b.search != b.replace
    ensures ApplyBlock(s, b) == s <==> forall j: nat :: !OccursAt(s, b.search, j)
  {
    hide IndexOf;
    IndexExactly(s, b.search);
    var i := IndexOf(s, b.search);
    if i.Some? && |b.search| == |b.replace| {
      assert ApplyBlock(s, b)[i.value..i.value + |b.search|] == b.replace;
      assert s[i.value..i.value + |b.search|] == b.search;
    }
  }

  /** A replacement is undone by the opposite block when the new text does not occur earlier. */
  lemma BlockUndone(before: string, b: Block, after: string)
    requires b.search != "" && b.replace != ""
    requires forall j: nat :: j < |before| ==> !OccursAt(before + b.search + after, b.search, j)
    requires forall j: nat :: j < |before| ==> !OccursAt(before + b.replace + after, b.replace, j)
    ensures var s := before + b.search + after; ApplyBlock(ApplyBlock(s, b), Block(b.replace, b.search)) == s
  {
    hide OccursAt, ApplyBlock;
    BlockReplacesFirst(before, b, after);
    BlockReplacesFirst(before, Block(b.replace, b.search), after);
  }

  /**
   * A string field takes a patch of blocks as edits of its text and keeps its value for an empty patch; other fields
   * take any patch.
   */
  ghost function ApplyPatch(isString: bool, current: Value, patch: Value): Value {
    if !isString then patch
    else if IsEmpty(patch) then Str(AsString(current))
    else if patch.Object? && "blocks" in patch.members && patch.members["blocks"].List? then
      Str(ApplyBlocks(AsString(current), BlocksOf(patch.members["blocks"].items)))
    else Str(Printed(patch))
  }

  ghost function Merge(f: Field, current: Value, patch: Value): Value {
    match f.op
    case Patch => ApplyPatch(f.isString, current, patch)
    case Sum => ApplySum(current, patch)
    case Immutable => ApplyImmutable(current, patch)
  }

  predicate Touches(schema: Schema, fields: Meta, k: string) {
    k in schema && k in fields && k != "content"
  }

  ghost function EditMeta(schema: Schema, meta: Meta, fields: Meta): Meta {
    map k | k in meta.Keys + schema.Keys && (k in meta || Touches(schema, fields, k)) ::
      if Touches(schema, fields, k) then Merge(schema[k], Current(meta, k), fields[k]) else meta[k]
  }

  ghost function EditContent(schema: Schema, content: string, fields: Meta): string {
    if "content" !in fields then content
    else if "content" in schema then AsString(Merge(schema["content"], Str(content), fields["content"]))
    else AsString(ApplyPatch(true, Str(content), fields["content"]))
  }

  ghost function Edit(schema: Schema, m: Memory, fields: Meta): Memory {
    Memory(EditContent(schema, m.content, fields), EditMeta(schema, m.meta, fields))
  }

  ghost function Edits(schema: Schema, m: Memory, edits: seq<Meta>): Memory {
    if edits == [] then m else Edit(schema, Edits(schema, m, edits[..|edits| - 1]), edits[|edits| - 1])
  }

  /** The same edits on the file's text: each one reads it, merges and writes it back. */
  ghost function TextEdits(schema: Schema, full: string, edits: seq<Meta>): string {
    if edits == [] then full
    else
      var m := Edit(schema, Deserialize(TextEdits(schema, full, edits[..|edits| - 1])), edits[|edits| - 1]);
      Serialize(m.content, m.meta)
  }

  lemma {:induction false} EditsKeepFields(schema: Schema, m: Memory, edits: seq<Meta>)
    requires m.meta != map[]
    ensures Edits(schema, m, edits).meta != map[]
  {
    if edits != [] {
      var before := Edits(schema, m, edits[..|edits| - 1]);
      EditsKeepFields(schema, m, edits[..|edits| - 1]);
      var k :| k in before.meta;
      assert k in Edits(schema, m, edits).meta;
    }
  }

  /** Between edits the memory is always one that survives writing and reading. */
  ghost predicate StaysReadable(schema: Schema, m: Memory, edits: seq<Meta>) {
    forall i :: 0 <= i <= |edits| ==> Readable(Edits(schema, m, edits[..i]))
  }

  /** The text, read back after `edits`, is the merged memory. */
  ghost predicate TextAgrees(schema: Schema, m: Memory, edits: seq<Meta>) {
    Deserialize(TextEdits(schema, Serialize(m.content, m.meta), edits)) == Edits(schema, m, edits)
  }

  /** Once the text agrees with the memory, it goes on agreeing exactly as long as the memory is readable. */
  lemma NextAgrees(schema: Schema, m: Memory, edits: seq<Meta>)
    requires edits == [] || TextAgrees(schema, m, edits[..|edits| - 1])
    ensures TextAgrees(schema, m, edits) <==> Readable(Edits(schema, m, edits))
  {
    hide Deserialize, Serialize, Edit, Readable;
    ReadsBackExactly(Edits(schema, m, edits));
  }

  lemma {:induction false} ReadableAgrees(schema: Schema, m: Memory, edits: seq<Meta>)
    requires StaysReadable(schema, m, edits)
    ensures TextAgrees(schema, m, edits)
  {
    hide TextAgrees, Readable;
    assert edits[..|edits|] == edits;
    if edits != [] {
      var init := edits[..|edits| - 1];
      forall i | 0 <= i <= |init| ensures Readable(Edits(schema, m, init[..i])) {
        assert init[..i] == edits[..i];
      }
      ReadableAgrees(schema, m, init);
    }
    NextAgrees(schema, m, edits);
  }

  /** Nothing is lost in the file between edits exactly when every memory on the way is readable. */
  lemma TextFollowsMemory(schema: Schema, m: Memory, edits: seq<Meta>)
    ensures (forall i :: 0 <= i <= |edits| ==> TextAgrees(schema, m, edits[..i])) <==> StaysReadable(schema, m, edits)
  {
    hide TextAgrees, Readable;
    if StaysReadable(schema, m, edits) {
      forall i | 0 <= i <= |edits| ensures TextAgrees(schema, m, edits[..i]) {
        forall j | 0 <= j <= i ensures Readable(Edits(schema, m, edits[..i][..j])) {
          assert edits[..i][..j] == edits[..j];
        }
        ReadableAgrees(schema, m, edits[..i]);
      }
    }
    if forall i :: 0 <= i <= |edits| ==> TextAgrees(schema, m, edits[..i]) {
      forall i | 0 <= i <= |edits| ensures Readable(Edits(schema, m, edits[..i])) {
        if i > 0 {
          assert edits[..i][..i - 1] == edits[..i - 1];
        }
        NextAgrees(schema, m, edits[..i]);
      }
    }
  }

  /** A file that has fields keeps some, so it is always readable. */
  lemma FieldsStayReadable(schema: Schema, m: Memory, edits: seq<Meta>)
    requires m.meta != map[]
    ensures StaysReadable(schema, m, edits)
  {
    forall i | 0 <= i <= |edits| ensures Readable(Edits(schema, m, edits[..i])) {
      EditsKeepFields(schema, m, edits[..i]);
    }
  }

  /** The patches of one field, in order. */
  function PatchesOf(edits: seq<Meta>, k: string): seq<Value> {
    if edits == [] then []
    else
      var last := edits[|edits| - 1];
      PatchesOf(edits[..|edits| - 1], k) + if k in last then [last[k]] else []
  }

  lemma {:induction false} FieldHistory(schema: Schema, m: Memory, edits: seq<Meta>, k: string)
    requires k in schema && k != "content"
    ensures schema[k].op == Sum ==> Current(Edits(schema, m, edits).meta, k) == AfterSum(Current(m.meta, k), PatchesOf(edits, k))
    ensures schema[k].op == Immutable ==>
              Current(Edits(schema, m, edits).meta, k) == AfterImmutable(Current(m.meta, k), PatchesOf(edits, k))
  {
    hide ApplySum, ApplyImmutable, ApplyPatch;
    if edits != [] {
      var init := edits[..|edits| - 1];
      FieldHistory(schema, m, init, k);
      var ps := PatchesOf(init, k);
      if k in edits[|edits| - 1] {
        assert (ps + [edits[|edits| - 1][k]])[..|ps|] == ps;
      } else {
        assert ps + [] == ps;
      }
    }
  }

  /**
   * In the file itself, over any edits: a sum field whose first value is a number is its start plus every numeric patch,
   * any other sum field stays at its first value, and an immutable field keeps its first value that is not empty,
   * whether it had it at the start or got it by an edit.
   */
  lemma FieldsOverEdits(schema: Schema, m: Memory, edits: seq<Meta>, k: string)
    requires StaysReadable(schema, m, edits) && k in schema && k != "content"
    ensures var start, ps := Current(m.meta, k), PatchesOf(edits, k);
            var now := Current(Deserialize(TextEdits(schema, Serialize(m.content, m.meta), edits)).meta, k);
            && (schema[k].op == Sum ==>
                if Numeric(FirstSet(start, ps)).Some? then Numeric(now).Some? && Counts(now) == Counts(start) + Total(ps)
                else now == FirstSet(start, ps))
            && (schema[k].op == Immutable && !IsEmpty(start) ==> now == start)
            && (schema[k].op == Immutable && IsEmpty(start) ==>
                forall j :: 0 <= j < |ps| && !IsEmpty(ps[j]) && (forall i :: 0 <= i < j ==> IsEmpty(ps[i])) ==> now == ps[j])
  {
    hide Deserialize, Serialize, Numeric, Counts, IsEmpty, Readable;
    var start, ps := Current(m.meta, k), PatchesOf(edits, k);
    ReadableAgrees(schema, m, edits);
    FieldHistory(schema, m, edits, k);
    SumExactly(start, ps);
    ImmutableKeeps(start, ps);
    if schema[k].op == Immutable && IsEmpty(start) {
      forall j | 0 <= j < |ps| && !IsEmpty(ps[j]) && (forall i :: 0 <= i < j ==> IsEmpty(ps[i]))
        ensures AfterImmutable(start, ps) == ps[j]
      {
        ImmutableTakesFirst(start, ps, j);
      }
    }
  }

  // ----- The updater -----

  /** The field schemas by memory type. */
  type Registry = map<string, Schema>

  function SchemaOf(registry: Registry, memoryType: string): Schema {
    if memoryType in registry then registry[memoryType] else map[]
  }

  /** The fields that a write stores: those the schema knows, or, without a registry or a type, all but the content. */
  function Stored(registry: Option<Registry>, memoryType: string, fields: Meta): Meta {
    if registry.Some? && memoryType != "" then map k | k in SchemaOf(registry.value, memoryType) && k in fields :: fields[k]
    else map k | k in fields && k != "content" :: fields[k]
  }

  class MemoryUpdater {
    const registry: Option<Registry>
    /** The files, as the text they hold. */
    var files: map<string, string>

    constructor (registry: Option<Registry>, files: map<string, string>)
      ensures this.registry == registry && this.files == files
    {
      this.registry := registry;
      this.files := files;
    }

    static method SerializeWithMetadata(content: string, meta: Meta) returns (full: string)
      ensures full == Serialize(content, meta)
    {
      if |meta| == 0 {
        return content;
      }
      var json := MarshalObject(meta);
      return MARKER + " " + json + " " + MARKER_END + "\n" + content;
    }

    /** Writes a memory anew. */
    method ApplyWrite(uri: string, memoryType: string, content: string, fields: Meta)
      modifies this`files
      ensures files == old(files)[uri := Serialize(content, Stored(registry, memoryType, fields))]
    {
      hide Serialize;
      var meta: Meta := map[];
      if registry.Some? && memoryType != "" {
        meta := SelectFields(SchemaOf(registry.value, memoryType), fields);
      } else {
        meta := FieldsWithoutContent(fields);
      }
      var full := SerializeWithMetadata(content, meta);
      files := files[uri := full];
    }

    /**
     * Merges the given fields into a memory file; a file that does not exist is written instead. Without a registry an
     * existing file cannot be edited: the code would follow a nil pointer.
     */
    method ApplyEdit(uri: string, memoryType: string, content: string, fields: Meta)
      requires uri in files ==> registry.Some?
      modifies this`files
      ensures uri !in old(files) ==> files == old(files)[uri := Serialize(content, Stored(registry, memoryType, fields))]
      ensures uri in old(files) ==>
                var m := Edit(SchemaOf(registry.value, memoryType), Deserialize(old(files)[uri]), fields);
                files == old(files)[uri := Serialize(m.content, m.meta)]
    {
      hide Deserialize, Serialize, Edit, Stored;
      if uri !in files {
        ApplyWrite(uri, memoryType, content, fields);
        return;
      }
      var m := MergeFields(SchemaOf(registry.value, memoryType), Deserialize(files[uri]), fields);
      var full := SerializeWithMetadata(m.content, m.meta);
      files := files[uri := full];
    }

    /** Edits an overview as one text; a file that does not exist counts as empty. */
    method ApplyEditOverview(uri: string, fields: Meta)
      modifies this`files
      ensures "overview" !in fields ==> files == old(files)
      ensures "overview" in fields ==>
                var current := if uri in old(files) then old(files)[uri] else "";
                files == old(files)[uri := AsString(ApplyPatch(true, Str(current), fields["overview"]))]
    {
      hide ApplyPatch;
      if "overview" !in fields {
        return;
      }
      var current := if uri in files then files[uri] else "";
      var edited := PatchApply(true, Str(current), fields["overview"]);
      files := files[uri := AsString(edited)];
    }
  }

  method MarshalValue(v: Value) returns (json: string)
    ensures json == EncodeValue(v)
    decreases v, 1
  {
    match v
    case Null => return "null";
    case Bool(b) => return if b then "true" else "false";
    case Num(n) => return JsonNumber(n);
    case Str(s) => return EncodeString(s);
    case List(items) => json := MarshalItems(items);
    case Object(members) => json := MarshalObject(members);
  }

  method MarshalItems(items: seq<Value>) returns (json: string)
    ensures json == EncodeValue(List(items))
    decreases List(items), 0
  {
    hide EncodeString;
    if |items| == 0 {
      return "[]";
    }
    json := "]";
    var i := |items|;
    while i > 0
      invariant 0 <= i <= |items|
      invariant i == |items| ==> json == "]"
      invariant i < |items| ==> json == EncodeItems(items[i..])
    {
      i := i - 1;
      assert items[i..][1..] == items[i + 1..];
      var item := MarshalValue(items[i]);
      json := item + if i == |items| - 1 then json else "," + json;
    }
    assert items[0..] == items;
    json := "[" + json;
  }

  method MarshalObject(meta: Meta) returns (json: string)
    ensures json == EncodeMeta(meta)
    decreases Object(meta), 0
  {
    hide EncodeString, EncodeValue;
    if |meta| == 0 {
      assert meta == map[];
      return "{}";
    }
    var keys := Sort(meta.Keys);
    assert keys != [];
    json := "}";
    var i := |keys|;
    while i > 0
      invariant 0 <= i <= |keys|
      invariant i == |keys| ==> json == "}"
      invariant i < |keys| ==> json == EncodeMembers(meta, keys[i..])
    {
      i := i - 1;
      assert keys[i..][1..] == keys[i + 1..];
      assert keys[i] in keys;
      var value := MarshalValue(meta[keys[i]]);
      json := EncodeString(keys[i]) + ":" + value + if i == |keys| - 1 then json else "," + json;
    }
    assert keys[0..] == keys;
    json := "{" + json;
  }

  method SelectFields(schema: Schema, fields: Meta) returns (meta: Meta)
    ensures meta == map k | k in schema && k in fields :: fields[k]
  {
    meta := map[];
    var rest := schema.Keys;
    while rest != {}
      invariant rest <= schema.Keys
      invariant meta == map k | k in schema && k !in rest && k in fields :: fields[k]
      decreases |rest|
    {
      var k :| k in rest;
      rest := rest - {k};
      if k in fields {
        meta := meta[k := fields[k]];
      }
    }
  }

  method FieldsWithoutContent(fields: Meta) returns (meta: Meta)
    ensures meta == map k | k in fields && k != "content" :: fields[k]
  {
    meta := map[];
    var rest := fields.Keys;
    while rest != {}
      invariant rest <= fields.Keys
      invariant meta == map k | k in fields && k !in rest && k != "content" :: fields[k]
      decreases |rest|
    {
      var k :| k in rest;
      rest := rest - {k};
      if k != "content" {
        meta := meta[k := fields[k]];
      }
    }
  }

  // ----- The merge operators -----

  method SprintValue(v: Value) returns (text: string)
    ensures text == Printed(v)
    decreases v, 1
  {
    match v
    case Null => return "<nil>";
    case Bool(b) => return if b then "true" else "false";
    case Num(n) => return DefaultNumber(n);
    case Str(s) => return s;
    case List(items) =>
      text := SprintItems(items);
      text := "[" + text + "]";
    case Object(members) =>
      text := SprintMembers(members);
      text := "map[" + text + "]";
  }

  method SprintItems(items: seq<Value>) returns (text: string)
    ensures text == PrintedItems(items)
    decreases items
  {
    text := "";
    var i := |items|;
    while i > 0
      invariant 0 <= i <= |items| && text == PrintedItems(items[i..])
    {
      i := i - 1;
      assert items[i..][1..] == items[i + 1..];
      var item := SprintValue(items[i]);
      text := if i == |items| - 1 then item else item + " " + text;
    }
    assert items[0..] == items;
  }

  method SprintMembers(m: Meta) returns (text: string)
    ensures text == PrintedMembers(m, SortedNames(m.Keys))
    decreases Object(m), 0
  {
    hide Printed, SortedNames;
    var keys := Sort(m.Keys);
    text := "";
    var i := |keys|;
    while i > 0
      invariant 0 <= i <= |keys| && text == PrintedMembers(m, keys[i..])
    {
      i := i - 1;
      assert keys[i..][1..] == keys[i + 1..];
      assert keys[i] in keys;
      var value := SprintValue(m[keys[i]]);
      text := keys[i] + ":" + value + if i == |keys| - 1 then "" else " " + text;
    }
    assert keys[0..] == keys;
  }

  method ParseStrPatch(items: seq<Value>) returns (blocks: seq<Block>)
    ensures blocks == BlocksOf(items)
  {
    blocks := [];
    for i := 0 to |items|
      invariant blocks == BlocksOf(items[..i])
    {
      assert items[..i + 1][..i] == items[..i];
      if items[i].Object? {
        blocks := blocks + [Block(TextField(items[i].members, "search"), TextField(items[i].members, "replace"))];
      }
    }
    assert items[..|items|] == items;
  }

  method ApplyStrPatch(current: string, blocks: seq<Block>) returns (text: string)
    ensures text == ApplyBlocks(current, blocks)
  {
    text := current;
    for i := 0 to |blocks|
      invariant text == ApplyBlocks(current, blocks[..i])
    {
      assert blocks[..i + 1][..i] == blocks[..i];
      if blocks[i].search == "" {
        text := if text == "" then blocks[i].replace else text + "\n" + blocks[i].replace;
        continue;
      }
      var at := IndexOf(text, blocks[i].search);
      if at.Some? {
        text := text[..at.value] + blocks[i].replace + text[at.value + |blocks[i].search|..];
      }
    }
    assert blocks[..|blocks|] == blocks;
  }

  method PatchApply(isString: bool, current: Value, patch: Value) returns (r: Value)
    ensures r == ApplyPatch(isString, current, patch)
  {
    hide Printed, ApplyBlocks, BlocksOf;
    if !isString {
      return patch;
    }
    var text := AsString(current);
    match patch {
      case Null =>
      case Str(s) =>
        text := if s == "" then text else s;
        PrintedText(s);
      case Object(members) =>
        if "blocks" in members && members["blocks"].List? {
          var blocks := ParseStrPatch(members["blocks"].items);
          text := ApplyStrPatch(text, blocks);
        } else {
          text := SprintValue(patch);
        }
      case _ => text := SprintValue(patch);
    }
    return Str(text);
  }

  lemma PrintedText(s: string)
    ensures Printed(Str(s)) == s
  {
  }

  method MergeApply(f: Field, current: Value, patch: Value) returns (r: Value)
    ensures r == Merge(f, current, patch)
  {
    hide ApplyPatch;
    match f.op
    case Patch => r := PatchApply(f.isString, current, patch);
    case Sum => r := ApplySum(current, patch);
    case Immutable => r := ApplyImmutable(current, patch);
  }

  /** Merges field by field, in the order of a map iteration. */
  method MergeFields(schema: Schema, m: Memory, fields: Meta) returns (r: Memory)
    ensures r == Edit(schema, m, fields)
  {
    hide Merge, ApplyPatch;
    var newContent := m.content;
    var meta := m.meta;
    var rest := schema.Keys;
    while rest != {}
      invariant rest <= schema.Keys
      invariant Merging(schema, m.meta, fields, schema.Keys - rest, meta)
      invariant newContent == if "content" in schema && "content" !in rest then EditContent(schema, m.content, fields) else m.content
      decreases |rest|
    {
      var k :| k in rest;
      MergingStep(schema, m.meta, fields, schema.Keys - rest, meta, k);
      assert schema.Keys - (rest - {k}) == schema.Keys - rest + {k};
      rest := rest - {k};
      if k !in fields {
        continue;
      }
      if k == "content" {
        var merged := MergeApply(schema[k], Str(m.content), fields[k]);
        newContent := AsString(merged);
      } else {
        var merged := MergeApply(schema[k], Current(meta, k), fields[k]);
        meta := meta[k := merged];
      }
    }
    if "content" in fields && "content" !in schema {
      var patched := PatchApply(true, Str(m.content), fields["content"]);
      newContent := AsString(patched);
    }
    assert schema.Keys - rest == schema.Keys;
    MergingEnd(schema, m.meta, fields, meta);
    r := Memory(newContent, meta);
  }

  /** The fields in `done` have been merged. */
  ghost predicate Merging(schema: Schema, meta: Meta, fields: Meta, done: set<string>, now: Meta) {
    && (forall k :: k in now <==> k in meta || (k in done && Touches(schema, fields, k)))
    && (forall k :: k in now ==>
                      now[k] == if k in done && Touches(schema, fields, k) then Merge(schema[k], Current(meta, k), fields[k]) else meta[k])
  }

  lemma MergingStep(schema: Schema, meta: Meta, fields: Meta, done: set<string>, now: Meta, k: string)
    requires Merging(schema, meta, fields, done, now) && k in schema && k !in done
    ensures Current(now, k) == Current(meta, k)
    ensures Touches(schema, fields, k) ==>
              Merging(schema, meta, fields, done + {k}, now[k := Merge(schema[k], Current(now, k), fields[k])])
    ensures !Touches(schema, fields, k) ==> Merging(schema, meta, fields, done + {k}, now)
  {
  }

  lemma MergingEnd(schema: Schema, meta: Meta, fields: Meta, now: Meta)
    requires Merging(schema, meta, fields, schema.Keys, now)
    ensures now == EditMeta(schema, meta, fields)
  {
  }
}
