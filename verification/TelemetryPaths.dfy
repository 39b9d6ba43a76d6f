/**
 Flattening seen from the telemetry itself: which values a path of keys leads to, and what is published for each
 (platform/data-publish-manager/publishers/linklab-influx/linklab-influx-publisher.js:70-122).
 */
module TelemetryPaths {
  import opened Flattening

  /** The keys of `path` lead from `value` to `v`, which is neither an object nor null. */
  ghost predicate LeadsTo(value: Json, path: seq<string>, v: Json)
    decreases |path|
  {
    if path == [] then value == v && !v.Object? && !v.Null?
    else value.Object? && LeadsFrom(value.entries, path, v)
  }

  ghost predicate LeadsFrom(entries: seq<Member>, path: seq<string>, v: Json)
    requires path != []
    decreases |path|, 0
  {
    exists k :: 0 <= k < |entries| && entries[k].key == path[0] && LeadsTo(entries[k].value, path[1..], v)
  }

  lemma LeadsFromSnoc(front: seq<Member>, last: Member, path: seq<string>, v: Json)
    requires path != []
    ensures LeadsFrom(front + [last], path, v) <==>
            LeadsFrom(front, path, v) || (last.key == path[0] && LeadsTo(last.value, path[1..], v))
  {
    var all := front + [last];
    assert all[|front|] == last && forall k :: 0 <= k < |front| ==> all[k] == front[k];
  }

  lemma InUnder(key: string, leaves: seq<Leaf>, leaf: Leaf)
    ensures leaf in Under(key, leaves) <==> leaf.above != [] && leaf.above[0] == key && leaf.(above := leaf.above[1..]) in leaves
  {
    UnderMembers(key, leaves);
    if leaf in Under(key, leaves) {
      var k :| 0 <= k < |leaves| && Under(key, leaves)[k] == leaf;
      assert leaf.above[1..] == leaves[k].above;
      assert leaf.(above := leaf.above[1..]) == leaves[k];
    }
    if leaf.above != [] && leaf.above[0] == key && leaf.(above := leaf.above[1..]) in leaves {
      var k :| 0 <= k < |leaves| && leaves[k] == leaf.(above := leaf.above[1..]);
      assert [key] + leaves[k].above == leaf.above;
      assert Under(key, leaves)[k] == leaf;
    }
  }

  /** The leaves of a value are exactly the values that paths lead to. */
  lemma {:induction false} LeavesAreLedTo(key: string, value: Json, leaf: Leaf)
    ensures leaf in Leaves(key, value) <==> Path(leaf)[0] == key && LeadsTo(value, Path(leaf)[1..], leaf.value)
    decreases value, 0
  {
    match value
    case Object(entries) =>
      InUnder(key, LeavesOfEntries(entries), leaf);
      if leaf.above != [] {
        var below := leaf.(above := leaf.above[1..]);
        assert Path(leaf)[1..] == Path(below);
        EntryLeavesAreLedTo(entries, below);
      } else {
        assert Path(leaf)[1..] == [];
      }
    case _ =>
      if leaf.above == [] {
        assert Path(leaf)[1..] == [];
      }
  }

  lemma {:induction false} EntryLeavesAreLedTo(entries: seq<Member>, leaf: Leaf)
    ensures leaf in LeavesOfEntries(entries) <==> LeadsFrom(entries, Path(leaf), leaf.value)
    decreases entries, |entries|
  {
    if entries != [] {
      var front, last := entries[..|entries| - 1], entries[|entries| - 1];
      EntryLeavesAreLedTo(front, leaf);
      LeavesAreLedTo(last.key, last.value, leaf);
      LeadsFromSnoc(front, last, Path(leaf), leaf.value);
      assert entries == front + [last];
    }
  }

  /** The leaf at the end of a path. */
  function LeafAt(path: seq<string>, v: Json): (leaf: Leaf)
    requires path != []
    ensures Path(leaf) == path
  {
    Leaf(path[..|path| - 1], path[|path| - 1], v)
  }

  function NameOfPath(path: seq<string>): string
    requires path != []
  {
    Name(path[..|path| - 1], path[|path| - 1])
  }

  /**
   With plain keys every value that a path of the telemetry leads to is published, converted by its kind, under a name
   that splits back into the path.
   */
  lemma EveryValueArrives(p: Publisher, entries: seq<Member>, path: seq<string>, v: Json)
    requires PlainEntries(entries) && path != [] && LeadsFrom(entries, path, v)
    ensures ShowsConverted(p, Write(p, EMPTY, Leaves("", Object(entries))), NameOfPath(path), path[|path| - 1], v)
    ensures SplitName(NameOfPath(path)) == path
  {
    EntryLeavesAreLedTo(entries, LeafAt(path, v));
    TelemetryIsRecoverable(p, entries);
    var k :| 0 <= k < |LeavesOfEntries(entries)| && LeavesOfEntries(entries)[k] == LeafAt(path, v);
  }

  lemma NameOfLeaf(leaf: Leaf)
    ensures NameOfPath(Path(leaf)) == NameOf(leaf)
  {
    assert Path(leaf)[..|Path(leaf)| - 1] == leaf.above;
  }

  /** And nothing is published that no path leads to. */
  lemma NothingElseArrives(p: Publisher, entries: seq<Member>, name: string) returns (path: seq<string>, v: Json)
    requires PlainEntries(entries)
    requires var out := Write(p, EMPTY, Leaves("", Object(entries))); name in out.payload || name in out.metadata
    ensures path != [] && LeadsFrom(entries, path, v) && NameOfPath(path) == name
  {
    TelemetryIsRecoverable(p, entries);
    var leaves := LeavesOfEntries(entries);
    var k :| 0 <= k < |leaves| && NameOf(leaves[k]) == name;
    path, v := Path(leaves[k]), leaves[k].value;
    EntryLeavesAreLedTo(entries, leaves[k]);
    NameOfLeaf(leaves[k]);
  }
}
