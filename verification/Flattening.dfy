/**
 Flattening nested telemetry into payload and metadata fields
 (platform/data-publish-manager/publishers/linklab-influx/linklab-influx-publisher.js:17-122,
 platform/data-publish-manager/publishers/sif-cloud/sif-cloud-publisher.js:173-217, which has no microbit case).

 Reading a string as a number is a partial function that is not modelled further.
 */
module Flattening {
  import opened Vocabulary

  /** A JSON value; an object or array is its entries in enumeration order. */
  datatype Json = Number(n: real) | Text(s: string) | Boolean(b: bool) | Null | Object(entries: seq<Member>)
  datatype Member = Member(key: string, value: Json)

  datatype Field = Num(n: real) | Str(s: string)
  datatype Fields = Fields(payload: map<string, Field>, metadata: map<string, string>)

  /** `numeric` is the conversion applied to strings that are numbers; a microbit's strings are not converted. */
  datatype Publisher = Publisher(numeric: string -> Option<real>, isMicrobit: bool)

  const EMPTY := Fields(map[], map[])

  // ---------------------------------------------------------------------------
  // What flattening means: the leaves of the tree, written in order

  /** A value that is no object, with its key and the keys above that, outermost first. */
  datatype Leaf = Leaf(above: seq<string>, key: string, value: Json)

  /** The leaves of an object that is itself stored under `key`. */
  function Under(key: string, leaves: seq<Leaf>): seq<Leaf> {
    if leaves == [] then []
    else
      var last := leaves[|leaves| - 1];
      Under(key, leaves[..|leaves| - 1]) + [last.(above := [key] + last.above)]
  }

  /** The leaves of `value`, stored under `key`, depth first. */
  function Leaves(key: string, value: Json): seq<Leaf>
    decreases value, 0
  {
    match value
    case Null => []
    case Object(entries) => Under(key, LeavesOfEntries(entries))
    case _ => [Leaf([], key, value)]
  }

  function LeavesOfEntries(entries: seq<Member>): seq<Leaf>
    decreases entries, |entries|
  {
    if entries == [] then []
    else LeavesOfEntries(entries[..|entries| - 1]) + Leaves(entries[|entries| - 1].key, entries[|entries| - 1].value)
  }

  function Rename(key: string, name: string): string {
    if key == "" then name else key + "_" + name
  }

  /** The field name of a path: keys joined by '_', where an empty key above the last adds nothing. */
  function Name(above: seq<string>, key: string): string {
    if above == [] then key else Rename(above[0], Name(above[1..], key))
  }

  datatype Target = ToPayload(field: Field) | ToMetadata(text: string) | Nowhere

  /** Where a value goes; `key` is the key directly above it. */
  function Convert(p: Publisher, key: string, value: Json): Target {
    match value
    case Number(n) => ToPayload(Num(n))
    case Boolean(b) => ToPayload(Num(if b then 1.0 else 0.0))
    case Text(s) =>
      if p.isMicrobit then (if key == "manufacturer_data" then ToPayload(Str(s)) else ToMetadata(s))
      else (match p.numeric(s) case Some(n) => ToPayload(Num(n)) case None => ToMetadata(s))
    case Null => Nowhere
    case Object(_) => Nowhere
  }

  function TargetOf(p: Publisher, leaf: Leaf): Target {
    Convert(p, leaf.key, leaf.value)
  }

  function Put(p: Publisher, out: Fields, leaf: Leaf): Fields {
    match TargetOf(p, leaf)
    case ToPayload(field) => out.(payload := out.payload[Name(leaf.above, leaf.key) := field])
    case ToMetadata(text) => out.(metadata := out.metadata[Name(leaf.above, leaf.key) := text])
    case Nowhere => out
  }

  /** Writes the leaves one after the other; a later leaf of the same name wins. */
  function Write(p: Publisher, out: Fields, leaves: seq<Leaf>): Fields {
    if leaves == [] then out
    else Put(p, Write(p, out, leaves[..|leaves| - 1]), leaves[|leaves| - 1])
  }

  // ---------------------------------------------------------------------------
  // How the publishers do it: merging the results for inner objects

  predicate IsRenamed(key: string, name: string) {
    key == "" || (key + "_") <= name
  }

  function Original(key: string, name: string): string
    requires IsRenamed(key, name)
  {
    if key == "" then name else name[|key| + 1..]
  }

  /** `out` overwritten by the fields of `inner`, renamed. */
  function Merge<V>(out: map<string, V>, key: string, inner: map<string, V>): map<string, V> {
    map name | name in out.Keys + (set k | k in inner :: Rename(key, k)) ::
      if IsRenamed(key, name) && Original(key, name) in inner then inner[Original(key, name)] else out[name]
  }

  lemma RenameOriginal(key: string, name: string)
    ensures IsRenamed(key, Rename(key, name)) && Original(key, Rename(key, name)) == name
    ensures IsRenamed(key, name) ==> Rename(key, Original(key, name)) == name
  {
  }

  lemma MergeLookup<V>(out: map<string, V>, key: string, inner: map<string, V>, name: string)
    ensures name in Merge(out, key, inner) <==> name in out || (IsRenamed(key, name) && Original(key, name) in inner)
    ensures name in Merge(out, key, inner) ==>
              Merge(out, key, inner)[name] ==
              if IsRenamed(key, name) && Original(key, name) in inner then inner[Original(key, name)] else out[name]
  {
    if IsRenamed(key, name) && Original(key, name) in inner {
      RenameOriginal(key, name);
      assert Rename(key, Original(key, name)) in (set k | k in inner :: Rename(key, k));
    }
    if k :| k in inner && Rename(key, k) == name {
      RenameOriginal(key, k);
    }
  }

  lemma MergePut<V>(out: map<string, V>, key: string, inner: map<string, V>, name: string, v: V)
    ensures Merge(out, key, inner[name := v]) == Merge(out, key, inner)[Rename(key, name) := v]
  {
    var a, b := Merge(out, key, inner[name := v]), Merge(out, key, inner)[Rename(key, name) := v];
    forall x
      ensures x in a <==> x in b
      ensures x in a ==> a[x] == b[x]
    {
      MergeLookup(out, key, inner[name := v], x);
      MergeLookup(out, key, inner, x);
      RenameOriginal(key, name);
      RenameOriginal(key, x);
    }
  }

  lemma MergeNothing<V>(out: map<string, V>, key: string)
    ensures Merge(out, key, map[]) == out
  {
    forall x
      ensures x in Merge(out, key, map[]) <==> x in out
      ensures x in out ==> Merge(out, key, map[])[x] == out[x]
    {
      MergeLookup(out, key, map[], x);
    }
  }

  method MergeFields<V>(out: map<string, V>, key: string, inner: map<string, V>) returns (result: map<string, V>)
    ensures result == Merge(out, key, inner)
  {
    result := out;
    var todo := inner.Keys;
    ghost var done: map<string, V> := map[];
    MergeNothing(out, key);
    while todo != {}
      invariant todo <= inner.Keys && done.Keys == inner.Keys - todo
      invariant forall name :: name in done ==> done[name] == inner[name]
      invariant result == Merge(out, key, done)
    {
      var name :| name in todo;
      todo := todo - {name};
      MergePut(out, key, done, name, inner[name]);
      done := done[name := inner[name]];
      var newKey := if key == "" then name else key + "_" + name;
      result := result[newKey := inner[name]];
    }
    assert done == inner;
  }

  lemma WriteOne(p: Publisher, key: string, value: Json)
    ensures Write(p, EMPTY, [Leaf([], key, value)]) == Put(p, EMPTY, Leaf([], key, value))
  {
    assert [Leaf([], key, value)][..0] == [];
  }

  lemma {:induction false} WriteAppend(p: Publisher, out: Fields, a: seq<Leaf>, b: seq<Leaf>)
    ensures Write(p, out, a + b) == Write(p, Write(p, out, a), b)
  {
    if b == [] {
      assert a + b == a;
    } else {
      WriteAppend(p, out, a, b[..|b| - 1]);
      assert (a + b)[..|a + b| - 1] == a + b[..|b| - 1];
    }
  }

  lemma {:induction false} UnderAppend(key: string, a: seq<Leaf>, b: seq<Leaf>)
    ensures Under(key, a + b) == Under(key, a) + Under(key, b)
  {
    if b == [] {
      assert a + b == a;
    } else {
      UnderAppend(key, a, b[..|b| - 1]);
      assert (a + b)[..|a + b| - 1] == a + b[..|b| - 1];
    }
  }

  /** Merging the renamed result for an inner value is writing its leaves with the longer paths. */
  lemma {:induction false} MergeIsWrite(p: Publisher, out: Fields, key: string, leaves: seq<Leaf>)
    ensures var inner := Write(p, EMPTY, leaves);
      Fields(Merge(out.payload, key, inner.payload), Merge(out.metadata, key, inner.metadata)) == Write(p, out, Under(key, leaves))
  {
    if leaves == [] {
      MergeNothing(out.payload, key);
      MergeNothing(out.metadata, key);
    } else {
      var front, last := leaves[..|leaves| - 1], leaves[|leaves| - 1];
      MergeIsWrite(p, out, key, front);
      var inner := Write(p, EMPTY, front);
      var moved := last.(above := [key] + last.above);
      assert Under(key, leaves)[..|Under(key, front)|] == Under(key, front);
      assert Name(moved.above, moved.key) == Rename(key, Name(last.above, last.key)) by {
        assert moved.above[1..] == last.above;
      }
      match TargetOf(p, last)
      case ToPayload(field) => MergePut(out.payload, key, inner.payload, Name(last.above, last.key), field);
      case ToMetadata(text) => MergePut(out.metadata, key, inner.metadata, Name(last.above, last.key), text);
      case Nowhere =>
    }
  }

  /** The cases of the publishers' switch for values that are no objects. */
  method ConvertSingle(p: Publisher, key: string, value: Json) returns (out: Fields)
    requires !value.Object?
    ensures out == Write(p, EMPTY, Leaves(key, value)) && ShowsConverted(p, out, key, key, value)
  {
    WriteOne(p, key, value);
    SingleValueConverts(p, key, value);
    out := EMPTY;
    match value {
      case Number(n) =>
        out := out.(payload := out.payload[key := Num(n)]);
      case Text(s) =>
        if p.isMicrobit {
          if key == "manufacturer_data" {
            out := out.(payload := out.payload[key := Str(s)]);
          } else {
            out := out.(metadata := out.metadata[key := s]);
          }
        } else if p.numeric(s).Some? {
          out := out.(payload := out.payload[key := Num(p.numeric(s).value)]);
        } else {
          out := out.(metadata := out.metadata[key := s]);
        }
      case Boolean(b) =>
        out := out.(payload := out.payload[key := Num(if b then 1.0 else 0.0)]);
      case Null =>
    }
  }

  /** The recursion of the publishers writes the leaves in depth-first order, the last of a name winning. */
  method GetConvertedFields(p: Publisher, key: string, value: Json) returns (out: Fields)
    ensures out == Write(p, EMPTY, Leaves(key, value))
    ensures !value.Object? ==> ShowsConverted(p, out, key, key, value)
    decreases value
  {
    match value {
      case Object(entries) =>
        out := EMPTY;
        for i := 0 to |entries|
          invariant out == Write(p, EMPTY, Under(key, LeavesOfEntries(entries[..i])))
        {
          assert entries[..i + 1][..i] == entries[..i];
          var inner := GetConvertedFields(p, entries[i].key, entries[i].value);
          ghost var before, more := LeavesOfEntries(entries[..i]), Leaves(entries[i].key, entries[i].value);
          MergeIsWrite(p, out, key, more);
          UnderAppend(key, before, more);
          WriteAppend(p, EMPTY, Under(key, before), Under(key, more));
          var payload := MergeFields(out.payload, key, inner.payload);
          var metadata := MergeFields(out.metadata, key, inner.metadata);
          out := Fields(payload, metadata);
        }
        assert entries[..|entries|] == entries;
      case _ =>
        out := ConvertSingle(p, key, value);
    }
  }

  // ---------------------------------------------------------------------------
  // Fields can be traced back

  /** A key that the joining of names does not disturb. */
  predicate PlainKey(key: string) {
    key != "" && '_' !in key
  }

  /** Keys are plain and, within one object, distinct. */
  ghost predicate PlainKeys(value: Json)
    decreases value, 0
  {
    value.Object? ==> PlainEntries(value.entries)
  }

  ghost predicate PlainEntries(entries: seq<Member>)
    decreases entries, |entries|
  {
    entries == [] ||
    (var front, last := entries[..|entries| - 1], entries[|entries| - 1];
     && PlainEntries(front) && PlainKey(last.key) && PlainKeys(last.value)
     && forall k :: 0 <= k < |front| ==> front[k].key != last.key)
  }

  function Path(leaf: Leaf): seq<string> {
    leaf.above + [leaf.key]
  }

  function NameOf(leaf: Leaf): string {
    Name(leaf.above, leaf.key)
  }

  /** The parts of a name between underscores. */
  function SplitName(name: string): seq<string> {
    if name == "" then [""]
    else
      var rest := SplitName(name[1..]);
      if name[0] == '_' then [""] + rest else [[name[0]] + rest[0]] + rest[1..]
  }

  lemma {:induction false} SplitPlain(key: string, rest: string)
    requires '_' !in key
    ensures SplitName(key) == [key] && SplitName(key + "_" + rest) == [key] + SplitName(rest)
  {
    if key == "" {
      assert (key + "_" + rest)[1..] == rest;
    } else {
      SplitPlain(key[1..], rest);
      assert (key + "_" + rest)[1..] == key[1..] + "_" + rest;
      assert key == [key[0]] + key[1..];
    }
  }

  ghost predicate PlainPath(path: seq<string>) {
    forall k :: 0 <= k < |path| ==> PlainKey(path[k])
  }

  lemma {:induction false} PartsHaveNoUnderscore(name: string)
    ensures SplitName(name) != [] && forall k :: 0 <= k < |SplitName(name)| ==> '_' !in SplitName(name)[k]
  {
    if name != "" {
      PartsHaveNoUnderscore(name[1..]);
    }
  }

  function NonEmptyKeys(path: seq<string>): (kept: seq<string>)
    ensures |kept| <= |path|
    ensures |kept| == |path| <==> "" !in path
    ensures "" !in path ==> kept == path
  {
    if path == [] then []
    else if path[0] == "" then NonEmptyKeys(path[1..])
    else [path[0]] + NonEmptyKeys(path[1..])
  }

  lemma {:induction false} NameSkipsEmptyKeys(above: seq<string>, key: string)
    requires '_' !in key && forall k :: 0 <= k < |above| ==> '_' !in above[k]
    ensures SplitName(Name(above, key)) == NonEmptyKeys(above) + [key]
  {
    if above == [] {
      SplitPlain(key, "");
    } else {
      NameSkipsEmptyKeys(above[1..], key);
      SplitPlain(above[0], Name(above[1..], key));
    }
  }

  /** A field name splits back into its path iff no key contains an underscore and no key above the last is empty. */
  lemma {:induction false} NameSplitsBackExactlyWhen(above: seq<string>, key: string)
    ensures SplitName(Name(above, key)) == above + [key]
        <==> '_' !in key && "" !in above && forall k :: 0 <= k < |above| ==> '_' !in above[k]
  {
    var path := above + [key];
    PartsHaveNoUnderscore(Name(above, key));
    assert path[|above|] == key && forall k :: 0 <= k < |above| ==> path[k] == above[k];
    if '_' !in key && forall k :: 0 <= k < |above| ==> '_' !in above[k] {
      NameSkipsEmptyKeys(above, key);
    }
  }

  ghost predicate DistinctPaths(leaves: seq<Leaf>) {
    forall i, j :: 0 <= i < j < |leaves| ==> Path(leaves[i]) != Path(leaves[j])
  }

  ghost predicate PlainLeaves(leaves: seq<Leaf>) {
    forall k :: 0 <= k < |leaves| ==> PlainPath(Path(leaves[k]))
  }

  lemma {:induction false} UnderMembers(key: string, leaves: seq<Leaf>)
    ensures |Under(key, leaves)| == |leaves|
    ensures forall k :: 0 <= k < |leaves| ==>
              Under(key, leaves)[k] == leaves[k].(above := [key] + leaves[k].above)
  {
    if leaves != [] {
      UnderMembers(key, leaves[..|leaves| - 1]);
    }
  }

  lemma UnderPlain(key: string, leaves: seq<Leaf>)
    requires PlainKey(key) && PlainLeaves(leaves) && DistinctPaths(leaves)
    ensures PlainLeaves(Under(key, leaves)) && DistinctPaths(Under(key, leaves))
    ensures forall k :: 0 <= k < |Under(key, leaves)| ==> Path(Under(key, leaves)[k])[0] == key
  {
    UnderMembers(key, leaves);
    var moved := Under(key, leaves);
    forall k | 0 <= k < |leaves|
      ensures Path(moved[k]) == [key] + Path(leaves[k])
    {
    }
    forall i, j | 0 <= i < j < |leaves|
      ensures Path(moved[i]) != Path(moved[j])
    {
      assert Path(leaves[i]) != Path(leaves[j]);
      assert ([key] + Path(leaves[i]))[1..] == Path(leaves[i]) && ([key] + Path(leaves[j]))[1..] == Path(leaves[j]);
    }
  }

  lemma {:induction false} LeavesArePlain(key: string, value: Json)
    requires PlainKey(key) && PlainKeys(value)
    ensures PlainLeaves(Leaves(key, value)) && DistinctPaths(Leaves(key, value))
    ensures forall k :: 0 <= k < |Leaves(key, value)| ==> Path(Leaves(key, value)[k])[0] == key
    decreases value, 0
  {
    match value
    case Object(entries) =>
      EntriesArePlain(entries);
      UnderPlain(key, LeavesOfEntries(entries));
    case _ =>
  }

  lemma {:induction false} EntriesArePlain(entries: seq<Member>)
    requires PlainEntries(entries)
    ensures PlainLeaves(LeavesOfEntries(entries)) && DistinctPaths(LeavesOfEntries(entries))
    ensures forall k :: 0 <= k < |LeavesOfEntries(entries)| ==>
              exists e :: 0 <= e < |entries| && entries[e].key == Path(LeavesOfEntries(entries)[k])[0]
    decreases entries, |entries|
  {
    if entries != [] {
      var front, last := entries[..|entries| - 1], entries[|entries| - 1];
      EntriesArePlain(front);
      LeavesArePlain(last.key, last.value);
      var before, more := LeavesOfEntries(front), Leaves(last.key, last.value);
      assert LeavesOfEntries(entries) == before + more;
      forall k | 0 <= k < |before|
        ensures exists e :: 0 <= e < |front| && entries[e].key == Path(before[k])[0]
      {
        var e :| 0 <= e < |front| && front[e].key == Path(before[k])[0];
        assert entries[e] == front[e];
      }
    }
  }

  /** `out` shows `target` at `name`, and nothing in the other half. */
  ghost predicate Shows(out: Fields, name: string, target: Target) {
    match target
    case ToPayload(field) => name in out.payload && out.payload[name] == field && name !in out.metadata
    case ToMetadata(text) => name in out.metadata && out.metadata[name] == text && name !in out.payload
    case Nowhere => name !in out.payload && name !in out.metadata
  }

  /** Leaf k is the last one of this name that goes to the payload. */
  ghost predicate IsLastToPayload(p: Publisher, leaves: seq<Leaf>, name: string, k: int) {
    && 0 <= k < |leaves| && NameOf(leaves[k]) == name && TargetOf(p, leaves[k]).ToPayload?
    && forall j :: k < j < |leaves| && NameOf(leaves[j]) == name ==> !TargetOf(p, leaves[j]).ToPayload?
  }

  /** Leaf k is the last one of this name that goes to the metadata. */
  ghost predicate IsLastToMetadata(p: Publisher, leaves: seq<Leaf>, name: string, k: int) {
    && 0 <= k < |leaves| && NameOf(leaves[k]) == name && TargetOf(p, leaves[k]).ToMetadata?
    && forall j :: k < j < |leaves| && NameOf(leaves[j]) == name ==> !TargetOf(p, leaves[j]).ToMetadata?
  }

  /** The payload has a field of a name iff some leaf of that name goes there, and then it is the last such leaf's. */
  lemma {:induction false} LastToPayloadWins(p: Publisher, leaves: seq<Leaf>, name: string)
    ensures name in Write(p, EMPTY, leaves).payload <==> exists k :: IsLastToPayload(p, leaves, name, k)
    ensures forall k :: IsLastToPayload(p, leaves, name, k) ==>
              Write(p, EMPTY, leaves).payload[name] == TargetOf(p, leaves[k]).field
  {
    if leaves != [] {
      var front, last := leaves[..|leaves| - 1], leaves[|leaves| - 1];
      LastToPayloadWins(p, front, name);
      if NameOf(last) == name && TargetOf(p, last).ToPayload? {
        assert IsLastToPayload(p, leaves, name, |leaves| - 1);
      } else {
        assert forall k :: IsLastToPayload(p, front, name, k) <==> IsLastToPayload(p, leaves, name, k);
      }
    }
  }

  /** The same for the metadata. */
  lemma {:induction false} LastToMetadataWins(p: Publisher, leaves: seq<Leaf>, name: string)
    ensures name in Write(p, EMPTY, leaves).metadata <==> exists k :: IsLastToMetadata(p, leaves, name, k)
    ensures forall k :: IsLastToMetadata(p, leaves, name, k) ==>
              Write(p, EMPTY, leaves).metadata[name] == TargetOf(p, leaves[k]).text
  {
    if leaves != [] {
      var front, last := leaves[..|leaves| - 1], leaves[|leaves| - 1];
      LastToMetadataWins(p, front, name);
      if NameOf(last) == name && TargetOf(p, last).ToMetadata? {
        assert IsLastToMetadata(p, leaves, name, |leaves| - 1);
      } else {
        assert forall k :: IsLastToMetadata(p, front, name, k) <==> IsLastToMetadata(p, leaves, name, k);
      }
    }
  }

  /** `out` has exactly the fields of the leaves. */
  ghost predicate ShowsExactly(p: Publisher, out: Fields, leaves: seq<Leaf>) {
    && (forall k :: 0 <= k < |leaves| ==>
          Shows(out, NameOf(leaves[k]), TargetOf(p, leaves[k])))
    && (forall name :: name in out.payload || name in out.metadata ==>
          exists k :: 0 <= k < |leaves| && NameOf(leaves[k]) == name)
  }

  ghost predicate DistinctNames(leaves: seq<Leaf>) {
    forall i, j :: 0 <= i < j < |leaves| ==> NameOf(leaves[i]) != NameOf(leaves[j])
  }

  /** A field once written stays, though it may be overwritten. */
  lemma {:induction false} WrittenStays(p: Publisher, leaves: seq<Leaf>, k: nat)
    requires k < |leaves|
    ensures TargetOf(p, leaves[k]).ToPayload? ==> NameOf(leaves[k]) in Write(p, EMPTY, leaves).payload
    ensures TargetOf(p, leaves[k]).ToMetadata? ==> NameOf(leaves[k]) in Write(p, EMPTY, leaves).metadata
  {
    if k < |leaves| - 1 {
      WrittenStays(p, leaves[..|leaves| - 1], k);
    }
  }

  /** Leaves of one name all have the same value to publish. */
  ghost predicate NamesAgree(p: Publisher, leaves: seq<Leaf>) {
    forall i, j :: 0 <= i < j < |leaves| && NameOf(leaves[i]) == NameOf(leaves[j]) ==> TargetOf(p, leaves[i]) == TargetOf(p, leaves[j])
  }

  lemma AgreedLeafIsShown(p: Publisher, leaves: seq<Leaf>, k: nat)
    requires NamesAgree(p, leaves) && k < |leaves|
    ensures Shows(Write(p, EMPTY, leaves), NameOf(leaves[k]), TargetOf(p, leaves[k]))
  {
    WrittenStays(p, leaves, k);
    LastToPayloadWins(p, leaves, NameOf(leaves[k]));
    LastToMetadataWins(p, leaves, NameOf(leaves[k]));
  }

  /**
   Nothing is lost in flattening exactly when no two values that meet under one name differ: every leaf is published, in
   payload or metadata and not in both, and nothing else is, iff leaves of the same name have the same value to publish.
   */
  lemma {:induction false} NothingIsLostExactlyWhen(p: Publisher, leaves: seq<Leaf>)
    ensures ShowsExactly(p, Write(p, EMPTY, leaves), leaves) <==> NamesAgree(p, leaves)
  {
    var out := Write(p, EMPTY, leaves);
    if NamesAgree(p, leaves) {
      forall k | 0 <= k < |leaves|
        ensures Shows(out, NameOf(leaves[k]), TargetOf(p, leaves[k]))
      {
        AgreedLeafIsShown(p, leaves, k);
      }
    }
    forall name | name in out.payload || name in out.metadata
      ensures exists k :: 0 <= k < |leaves| && NameOf(leaves[k]) == name
    {
      LastToPayloadWins(p, leaves, name);
      LastToMetadataWins(p, leaves, name);
      if name in out.payload {
        var k :| IsLastToPayload(p, leaves, name, k);
      } else {
        var k :| IsLastToMetadata(p, leaves, name, k);
      }
    }
  }

  /** At the root, whose key is empty, names are those of the entries. */
  lemma {:induction false} RootNames(leaves: seq<Leaf>)
    ensures |Under("", leaves)| == |leaves|
    ensures forall k :: 0 <= k < |leaves| ==>
              && NameOf(Under("", leaves)[k]) == NameOf(leaves[k])
              && Under("", leaves)[k].key == leaves[k].key && Under("", leaves)[k].value == leaves[k].value
  {
    UnderMembers("", leaves);
    forall k | 0 <= k < |leaves|
      ensures NameOf(Under("", leaves)[k]) == NameOf(leaves[k])
    {
      assert Under("", leaves)[k].above[1..] == leaves[k].above;
    }
  }

  lemma PlainNamesSplit(leaf: Leaf)
    requires PlainPath(Path(leaf))
    ensures SplitName(NameOf(leaf)) == Path(leaf)
  {
    assert forall i :: 0 <= i < |leaf.above| ==> Path(leaf)[i] == leaf.above[i];
    assert Path(leaf)[|leaf.above|] == leaf.key;
    NameSplitsBackExactlyWhen(leaf.above, leaf.key);
  }

  ghost predicate NamesSplitBack(leaves: seq<Leaf>) {
    forall k :: 0 <= k < |leaves| ==> SplitName(NameOf(leaves[k])) == Path(leaves[k])
  }

  lemma PlainNamesAreDistinct(leaves: seq<Leaf>)
    requires PlainLeaves(leaves) && DistinctPaths(leaves)
    ensures NamesSplitBack(leaves) && DistinctNames(leaves)
  {
    forall k | 0 <= k < |leaves|
      ensures SplitName(NameOf(leaves[k])) == Path(leaves[k])
    {
      PlainNamesSplit(leaves[k]);
    }
  }

  lemma RootShowsExactly(p: Publisher, out: Fields, leaves: seq<Leaf>)
    requires ShowsExactly(p, out, Under("", leaves))
    ensures ShowsExactly(p, out, leaves)
  {
    var moved := Under("", leaves);
    RootNames(leaves);
    forall k | 0 <= k < |leaves|
      ensures Shows(out, NameOf(leaves[k]), TargetOf(p, leaves[k]))
    {
      assert Shows(out, NameOf(moved[k]), TargetOf(p, moved[k]));
    }
    forall name | name in out.payload || name in out.metadata
      ensures exists k :: 0 <= k < |leaves| && NameOf(leaves[k]) == name
    {
      var k :| 0 <= k < |moved| && NameOf(moved[k]) == name;
      assert NameOf(leaves[k]) == name;
    }
  }

  lemma RootNamesAreDistinct(leaves: seq<Leaf>)
    requires PlainLeaves(leaves) && DistinctPaths(leaves)
    ensures DistinctNames(Under("", leaves))
  {
    PlainNamesAreDistinct(leaves);
    RootNames(leaves);
    forall i, j | 0 <= i < j < |leaves|
      ensures NameOf(Under("", leaves)[i]) != NameOf(Under("", leaves)[j])
    {
      assert NameOf(leaves[i]) != NameOf(leaves[j]);
    }
  }

  /** Leaves of plain paths are shown, and each name splits back. */
  lemma PlainLeavesAreShown(p: Publisher, leaves: seq<Leaf>)
    requires PlainLeaves(leaves) && DistinctPaths(leaves)
    ensures ShowsExactly(p, Write(p, EMPTY, Under("", leaves)), leaves)
  {
    RootNamesAreDistinct(leaves);
    NothingIsLostExactlyWhen(p, Under("", leaves));
    RootShowsExactly(p, Write(p, EMPTY, Under("", leaves)), leaves);
  }

  ghost predicate InPayload(out: Fields, name: string, field: Field) {
    name in out.payload && out.payload[name] == field && name !in out.metadata
  }

  ghost predicate InMetadata(out: Fields, name: string, text: string) {
    name in out.metadata && out.metadata[name] == text && name !in out.payload
  }

  /**
   Kind by kind, what is published under `name` for a value whose own key is `key`: numbers as they are, truth values as 1
   and 0, texts as the number that they denote or else in the metadata; a microbit's texts are never numbers, and its
   manufacturer data is payload.
   */
  ghost predicate ShowsConverted(p: Publisher, out: Fields, name: string, key: string, value: Json) {
    match value
    case Number(n) => InPayload(out, name, Num(n))
    case Boolean(b) => InPayload(out, name, Num(if b then 1.0 else 0.0))
    case Text(s) =>
      && (p.isMicrobit && key == "manufacturer_data" ==> InPayload(out, name, Str(s)))
      && (p.isMicrobit && key != "manufacturer_data" ==> InMetadata(out, name, s))
      && (!p.isMicrobit && p.numeric(s).Some? ==> InPayload(out, name, Num(p.numeric(s).value)))
      && (!p.isMicrobit && p.numeric(s).None? ==> InMetadata(out, name, s))
    case Null => name !in out.payload && name !in out.metadata
    case Object(_) => name !in out.payload && name !in out.metadata
  }

  lemma ShownIsConverted(p: Publisher, out: Fields, leaf: Leaf)
    requires Shows(out, NameOf(leaf), TargetOf(p, leaf))
    ensures ShowsConverted(p, out, NameOf(leaf), leaf.key, leaf.value)
  {
    match leaf.value
    case Text(s) => match p.numeric(s) { case Some(n) => case None => }
    case _ =>
  }

  /** What a value that is no object becomes on its own, kind by kind. */
  lemma SingleValueConverts(p: Publisher, key: string, value: Json)
    requires !value.Object?
    ensures var out := Write(p, EMPTY, Leaves(key, value));
      ShowsConverted(p, out, key, key, value) && out.payload.Keys <= {key} && out.metadata.Keys <= {key}
  {
    WriteOne(p, key, value);
    if !value.Null? {
      WriteOneLeaf(p, Leaf([], key, value));
    }
  }

  /**
   With plain keys, flattening telemetry loses nothing. Every value that converts is in payload or in metadata, never
   in both, converted by its kind, under a name that splits back into the keys that led to it; and there are no other
   fields.
   */
  lemma TelemetryIsRecoverable(p: Publisher, entries: seq<Member>)
    requires PlainEntries(entries)
    ensures var out, leaves := Write(p, EMPTY, Leaves("", Object(entries))), LeavesOfEntries(entries);
      && ShowsExactly(p, out, leaves) && NamesSplitBack(leaves)
      && forall k :: 0 <= k < |leaves| ==> ShowsConverted(p, out, NameOf(leaves[k]), leaves[k].key, leaves[k].value)
  {
    var leaves := LeavesOfEntries(entries);
    var out := Write(p, EMPTY, Under("", leaves));
    EntriesArePlain(entries);
    PlainNamesAreDistinct(leaves);
    PlainLeavesAreShown(p, leaves);
    assert Leaves("", Object(entries)) == Under("", leaves);
    forall k | 0 <= k < |leaves|
      ensures ShowsConverted(p, out, NameOf(leaves[k]), leaves[k].key, leaves[k].value)
    {
      ShownIsConverted(p, out, leaves[k]);
    }
  }

  lemma OneEntry(entry: Member)
    ensures LeavesOfEntries([entry]) == Leaves(entry.key, entry.value)
  {
    assert [entry][..0] == [];
  }

  lemma TwoEntries(first: Member, second: Member)
    ensures LeavesOfEntries([first, second]) == Leaves(first.key, first.value) + Leaves(second.key, second.value)
  {
    assert [first, second][..1] == [first];
    OneEntry(first);
  }

  lemma UnderOne(key: string, leaf: Leaf)
    ensures Under(key, [leaf]) == [leaf.(above := [key] + leaf.above)]
  {
    assert [leaf][..0] == [];
  }

  lemma OneBelow(outer: string, inner: string)
    requires outer != ""
    ensures Name([outer], inner) == outer + "_" + inner
  {
    assert [outer][1..] == [];
  }

  lemma WriteOneLeaf(p: Publisher, leaf: Leaf)
    ensures Write(p, EMPTY, [leaf]) == Put(p, EMPTY, leaf)
  {
    assert [leaf][..0] == [];
  }

  lemma WriteTwo(p: Publisher, x: Leaf, y: Leaf)
    ensures Write(p, EMPTY, [x, y]) == Put(p, Put(p, EMPTY, x), y)
  {
    assert [x, y][..1] == [x];
    WriteOneLeaf(p, x);
  }

  lemma LeavesOfNested(outer: string, inner: string, value: Json)
    requires value.Number? || value.Text?
    ensures Leaves(outer, Object([Member(inner, value)])) == [Leaf([outer], inner, value)]
  {
    OneEntry(Member(inner, value));
    UnderOne(outer, Leaf([], inner, value));
    assert [outer] + [] == [outer];
  }

  lemma PutTwice(p: Publisher, outer: string, inner: string, x: real, y: real)
    requires outer != ""
    ensures var name := outer + "_" + inner;
      Put(p, Put(p, EMPTY, Leaf([], name, Number(x))), Leaf([outer], inner, Number(y))) == Fields(map[name := Num(y)], map[])
  {
    OneBelow(outer, inner);
  }

  /** A key with an underscore meets a nested value under one name, and only the later of the two is published. */
  lemma UnderscoredKeysCollide(p: Publisher, outer: string, inner: string, x: real, y: real)
    requires outer != ""
    ensures var entries := [Member(outer + "_" + inner, Number(x)), Member(outer, Object([Member(inner, Number(y))]))];
      Write(p, EMPTY, LeavesOfEntries(entries)) == Fields(map[outer + "_" + inner := Num(y)], map[])
  {
    var name := outer + "_" + inner;
    LeavesOfNested(outer, inner, Number(y));
    TwoEntries(Member(name, Number(x)), Member(outer, Object([Member(inner, Number(y))])));
    WriteTwo(p, Leaf([], name, Number(x)), Leaf([outer], inner, Number(y)));
    PutTwice(p, outer, inner, x, y);
  }

  // ---------------------------------------------------------------------------
  // The published object

  /** A packet as the device manager publishes it. */
  datatype Packet = Packet(deviceType: string, deviceId: string, receivedTime: string, handlerId: string,
                           controllerId: string, gatewayId: string, data: Json)

  /** The published object: its `_meta` entry, and the others. */
  datatype Formatted = Formatted(fields: map<string, Field>, meta: map<string, string>)

  method GetFormattedData(numeric: string -> Option<real>, packet: Packet) returns (result: Formatted)
    ensures var out := Write(Publisher(numeric, packet.deviceType == "microbit"), EMPTY, Leaves("", packet.data));
      && result.fields == (map["device" := Str(packet.deviceType)] + out.payload) - {"_meta"}
      && result.meta == OwnMeta(packet) + out.metadata
      && ("device" !in out.payload ==> result.fields["device"] == Str(packet.deviceType))
      && KeepsOwnMeta(result.meta, out.metadata.Keys, packet)
  {
    var p := Publisher(numeric, packet.deviceType == "microbit");
    var out := GetConvertedFields(p, "", packet.data);
    var fields := MergeFields(map["device" := Str(packet.deviceType)], "", out.payload);
    var meta := MergeFields(OwnMeta(packet), "", out.metadata);
    MergeAtRoot(map["device" := Str(packet.deviceType)], out.payload);
    MergeAtRoot(OwnMeta(packet), out.metadata);
    OwnMetaKept(packet, out.metadata);
    result := Formatted(fields - {"_meta"}, meta);
  }

  /** Names that the telemetry does not use carry the packet's own metadata. */
  ghost predicate KeepsOwnMeta(meta: map<string, string>, used: set<string>, packet: Packet) {
    && {"received_time", "device_id", "handler_id", "controller_id", "gateway_id"} <= meta.Keys
    && ("received_time" !in used ==> meta["received_time"] == packet.receivedTime)
    && ("device_id" !in used ==> meta["device_id"] == packet.deviceId)
    && ("handler_id" !in used ==> meta["handler_id"] == packet.handlerId)
    && ("controller_id" !in used ==> meta["controller_id"] == packet.controllerId)
    && ("gateway_id" !in used ==> meta["gateway_id"] == packet.gatewayId)
  }

  lemma OwnMetaKept(packet: Packet, metadata: map<string, string>)
    ensures KeepsOwnMeta(OwnMeta(packet) + metadata, metadata.Keys, packet)
  {
  }

  function OwnMeta(packet: Packet): map<string, string> {
    map["received_time" := packet.receivedTime, "device_id" := packet.deviceId, "handler_id" := packet.handlerId,
        "controller_id" := packet.controllerId, "gateway_id" := packet.gatewayId]
  }

  lemma MergeAtRoot<V>(out: map<string, V>, inner: map<string, V>)
    ensures Merge(out, "", inner) == out + inner
  {
    forall x
      ensures x in Merge(out, "", inner) <==> x in out + inner
      ensures x in out + inner ==> Merge(out, "", inner)[x] == (out + inner)[x]
    {
      MergeLookup(out, "", inner, x);
    }
  }

  /**
   The packet's own metadata is published as it is exactly when no text of the telemetry comes last under one of its
   names with another value.
   */
  lemma OwnMetaSurvivesExactlyWhen(p: Publisher, packet: Packet)
    ensures var leaves := Leaves("", packet.data);
      (forall name :: name in OwnMeta(packet) ==> (OwnMeta(packet) + Write(p, EMPTY, leaves).metadata)[name] == OwnMeta(packet)[name])
      <==> (forall k, name :: name in OwnMeta(packet) && IsLastToMetadata(p, leaves, name, k) ==>
              TargetOf(p, leaves[k]).text == OwnMeta(packet)[name])
  {
    var leaves := Leaves("", packet.data);
    forall name
      ensures name in Write(p, EMPTY, leaves).metadata <==> exists k :: IsLastToMetadata(p, leaves, name, k)
      ensures forall k :: IsLastToMetadata(p, leaves, name, k) ==>
                Write(p, EMPTY, leaves).metadata[name] == TargetOf(p, leaves[k]).text
    {
      LastToMetadataWins(p, leaves, name);
    }
  }

  lemma PlainNested(outer: string, inner: string, value: Json)
    requires PlainKey(outer) && PlainKey(inner) && !value.Object?
    ensures PlainEntries([Member(outer, Object([Member(inner, value)]))])
  {
    var entries := [Member(inner, value)];
    assert entries[..0] == [] && PlainEntries([]);
    assert PlainEntries(entries);
    assert [Member(outer, Object(entries))][..0] == [];
  }

  lemma NestedTextIsMetadata(p: Publisher, outer: string, inner: string, text: string)
    requires PlainKey(outer) && PlainKey(inner) && inner != "manufacturer_data" && (p.isMicrobit || p.numeric(text) == None)
    ensures var entries := [Member(outer, Object([Member(inner, Text(text))]))];
      PlainEntries(entries) && Write(p, EMPTY, LeavesOfEntries(entries)).metadata == map[outer + "_" + inner := text]
  {
    PlainNested(outer, inner, Text(text));
    LeavesOfNested(outer, inner, Text(text));
    OneEntry(Member(outer, Object([Member(inner, Text(text))])));
    OneBelow(outer, inner);
    WriteOneLeaf(p, Leaf([outer], inner, Text(text)));
  }

  /** Plain keys do not prevent it: a text under `device.id` replaces the device's id. */
  lemma DeviceIdCanBeReplaced(p: Publisher)
    requires p.isMicrobit || p.numeric("x") == None
    ensures var entries := [Member("device", Object([Member("id", Text("x"))]))];
      PlainEntries(entries) && Write(p, EMPTY, LeavesOfEntries(entries)).metadata == map["device_id" := "x"]
  {
    NestedTextIsMetadata(p, "device", "id", "x");
    assert "device" + "_" + "id" == "device_id";
  }
}
