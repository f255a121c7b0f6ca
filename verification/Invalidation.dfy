/**
  Invalidation of compiled objects after sources changed, driven by the
  compiler's dependency traces: which outputs of a traced tool are deleted, and
  what is known of the objects that are kept.

  Paths are absolute and in upper case, as the traces are after normalisation.
*/
module Invalidation {
  import opened Wrappers

  type Path = string

  /** A root line names the sources that were compiled together; the root in force is None before the first one. */
  type Root = Option<seq<Path>>

  /** A line of a read trace: a new root, or files read for the root in force. */
  datatype Line = Under(sources: seq<Path>) | Reads(paths: seq<Path>)

  /** A line of a write trace. */
  datatype Write = From(sources: seq<Path>) | Writes(output: Path)

  /** A line of the object map. */
  datatype Item = Maps(source: Path, object_: Path) | Unusable

  datatype Tool = Tool(
    compiler: bool,
    readTrace: seq<Line>,
    writeTrace: seq<Write>,
    items: Option<seq<Item>>)

  predicate EndsWith(path: Path, suffix: string) {
    |suffix| <= |path| && path[|path| - |suffix|..] == suffix
  }

  predicate IsObject(path: Path) {
    EndsWith(path, ".OBJ")
  }

  // ----------------------------------------------------------- what is affected

  /** The root in force once `n` lines have been read. */
  function RootAfter(lines: seq<Line>, n: nat): Root
    requires n <= |lines|
  {
    if n == 0 then None
    else if lines[n - 1].Under? then Some(lines[n - 1].sources)
    else RootAfter(lines, n - 1)
  }

  function PathsOf(line: Line): seq<Path> {
    if line.Under? then line.sources else line.paths
  }

  /** A changed file was read, or compiled, under this root. */
  ghost predicate Affected(lines: seq<Line>, changed: set<Path>, root: Root) {
    exists i :: 0 <= i < |lines| && RootAfter(lines, i + 1) == root && Touches(lines[i], changed)
  }

  predicate Touches(line: Line, changed: set<Path>) {
    exists j :: 0 <= j < |PathsOf(line)| && PathsOf(line)[j] in changed
  }

  // ------------------------------------------------------------- what is written

  function WriterAfter(writes: seq<Write>, start: Root, n: nat): Root
    requires n <= |writes|
  {
    if n == 0 then start
    else if writes[n - 1].From? then Some(writes[n - 1].sources)
    else WriterAfter(writes, start, n - 1)
  }

  function Batch(writes: seq<Write>, start: Root, n: nat): set<(Root, Path)>
    requires n <= |writes|
  {
    if n == 0 then {}
    else if writes[n - 1].From? then Batch(writes, start, n - 1)
    else Batch(writes, start, n - 1) + {(WriterAfter(writes, start, n - 1), writes[n - 1].output)}
  }

  /** Every output with the root that it was written under. */
  function Written(tool: Tool): set<(Root, Path)> {
    Batch(tool.writeTrace, RootAfter(tool.readTrace, |tool.readTrace|), |tool.writeTrace|)
  }

  function Sources(root: Root): seq<Path> {
    if root.Some? then root.value else []
  }

  /** The batch's own root, or one of its sources compiled alone, is affected. */
  ghost predicate Hit(tool: Tool, changed: set<Path>, root: Root) {
    Affected(tool.readTrace, changed, root) || exists s :: s in Sources(root) && Affected(tool.readTrace, changed, Some([s]))
  }

  /** What would be deleted if every output of a hit batch were. */
  ghost predicate Conservative(tool: Tool, changed: set<Path>, root: Root, output: Path) {
    (root, output) in Written(tool) && Hit(tool, changed, root) && (tool.compiler ==> IsObject(output))
  }

  /** What is known of an output that was kept, given which source each object is mapped to. */
  ghost predicate UpToDate(tool: Tool, changed: set<Path>, objects: map<Path, Path>, root: Root, output: Path) {
    && !Affected(tool.readTrace, changed, root)
    && (output in objects && objects[output] in Sources(root) ==> !Affected(tool.readTrace, changed, Some([objects[output]])))
    && (!tool.compiler ==> !Hit(tool, changed, root))
  }

  /** Whether the object map can be used, and what it maps up to the first line that cannot. */
  function ItemMap(items: seq<Item>, directory: Path): (r: (bool, map<Path, Path>, set<Path>)) {
    if items == [] then (true, map[], {})
    else
      var k := |items| - 1;
      var (usable, objects, sources) := ItemMap(items[..k], directory);
      if usable && Fits(items[k], objects, sources, directory) then
        (true, objects[items[k].object_ := items[k].source], sources + {items[k].source})
      else (false, objects, sources)
  }

  /** A new object, inside the cache, of a new source. */
  predicate Fits(item: Item, objects: map<Path, Path>, sources: set<Path>, directory: Path) {
    && item.Maps? && item.object_ !in objects && item.source !in sources
    && IsObject(item.object_) && directory + "/" <= item.object_
  }

  lemma {:induction false} UnusableStays(items: seq<Item>, directory: Path, n: nat)
    requires n <= |items| && !ItemMap(items[..n], directory).0
    ensures ItemMap(items, directory) == ItemMap(items[..n], directory)
    decreases |items| - n
  {
    if n < |items| {
      assert items[..n + 1][..n] == items[..n];
      UnusableStays(items, directory, n + 1);
    } else {
      assert items[..n] == items;
    }
  }

  function Objects(tool: Tool, directory: Path): map<Path, Path> {
    if tool.compiler && tool.items.Some? then ItemMap(tool.items.value, directory).1 else map[]
  }

  predicate Mapped(tool: Tool, directory: Path) {
    tool.compiler && tool.items.Some? && ItemMap(tool.items.value, directory).0
  }

  /** A batch in which the object map tells, of every object, which of the batch's sources it comes from. */
  ghost predicate Narrow(tool: Tool, changed: set<Path>, directory: Path, root: Root) {
    && Mapped(tool, directory) && !Affected(tool.readTrace, changed, root)
    && (forall s :: s in Sources(root) ==> s in ItemMap(tool.items.value, directory).2)
    && (forall f :: (root, f) in Written(tool) && IsObject(f) ==> Explained(tool, directory, root, f))
  }

  predicate Explained(tool: Tool, directory: Path, root: Root, output: Path) {
    output in Objects(tool, directory) && Objects(tool, directory)[output] in Sources(root)
  }

  /** This batch has this output deleted. */
  ghost predicate Loses(tool: Tool, changed: set<Path>, directory: Path, root: Root, output: Path) {
    && Conservative(tool, changed, root, output)
    && (Narrow(tool, changed, directory, root) ==>
          Explained(tool, directory, root, output) && Affected(tool.readTrace, changed, Some([Objects(tool, directory)[output]])))
  }

  ghost predicate LostBy(tool: Tool, changed: set<Path>, directory: Path, output: Path) {
    exists root :: Loses(tool, changed, directory, root, output)
  }

  /** What the selective deletion keeps is up to date: its batch's root is unaffected, and so is its own source compiled alone. */
  lemma KeptIsUpToDate(tool: Tool, changed: set<Path>, directory: Path, root: Root, output: Path)
    requires (root, output) in Written(tool) && (tool.compiler ==> IsObject(output))
    requires !Loses(tool, changed, directory, root, output)
    ensures UpToDate(tool, changed, Objects(tool, directory), root, output)
  {
    hide Affected, ItemMap, Batch, WriterAfter, RootAfter;
  }

  // ------------------------------------- the same in terms of lines and files

  lemma {:induction false} NoRootYet(lines: seq<Line>, n: nat)
    requires n <= |lines|
    ensures RootAfter(lines, n).None? <==> forall m :: 0 <= m < n ==> lines[m].Reads?
  {
    if n > 0 && lines[n - 1].Reads? { NoRootYet(lines, n - 1); }
  }

  lemma {:induction false} RootNamed(lines: seq<Line>, k: nat, n: nat)
    requires k < n <= |lines| && lines[k].Under? && forall m :: k < m < n ==> lines[m].Reads?
    ensures RootAfter(lines, n) == Some(lines[k].sources)
  {
    if k < n - 1 { RootNamed(lines, k, n - 1); }
  }

  lemma {:induction false} WhereNamed(lines: seq<Line>, n: nat) returns (k: nat)
    requires n <= |lines| && RootAfter(lines, n).Some?
    ensures k < n && lines[k] == Under(RootAfter(lines, n).value) && forall m :: k < m < n ==> lines[m].Reads?
  {
    if lines[n - 1].Under? {
      k := n - 1;
    } else {
      k := WhereNamed(lines, n - 1);
    }
  }

  /** Before any root line, what is affected is told by the files read. */
  lemma RootlessAffectedExactly(lines: seq<Line>, changed: set<Path>)
    ensures Affected(lines, changed, None) <==>
              exists i, f :: 0 <= i < |lines| && (forall m :: 0 <= m <= i ==> lines[m].Reads?) && f in lines[i].paths && f in changed
  {
    hide RootAfter;
    if Affected(lines, changed, None) {
      var i :| 0 <= i < |lines| && RootAfter(lines, i + 1) == None && Touches(lines[i], changed);
      NoRootYet(lines, i + 1);
      var j :| 0 <= j < |PathsOf(lines[i])| && PathsOf(lines[i])[j] in changed;
      assert lines[i].paths[j] in lines[i].paths;
    }
    if i, f :| 0 <= i < |lines| && (forall m :: 0 <= m <= i ==> lines[m].Reads?) && f in lines[i].paths && f in changed {
      NoRootYet(lines, i + 1);
      assert f in PathsOf(lines[i]) && Touches(lines[i], changed);
    }
  }

  /** A root is affected exactly if a changed file is among its sources, or was read after it was named and before another was. */
  lemma AffectedExactly(lines: seq<Line>, changed: set<Path>, sources: seq<Path>)
    ensures Affected(lines, changed, Some(sources)) <==>
              exists k, i, f :: 0 <= k <= i < |lines| && lines[k] == Under(sources) && (forall m :: k < m <= i ==> lines[m].Reads?)
                                && f in (if i == k then sources else lines[i].paths) && f in changed
  {
    hide RootAfter;
    if Affected(lines, changed, Some(sources)) {
      var i :| 0 <= i < |lines| && RootAfter(lines, i + 1) == Some(sources) && Touches(lines[i], changed);
      var k := WhereNamed(lines, i + 1);
      var j :| 0 <= j < |PathsOf(lines[i])| && PathsOf(lines[i])[j] in changed;
      assert PathsOf(lines[i])[j] in (if i == k then sources else lines[i].paths);
      assert forall m :: k < m <= i ==> lines[m].Reads?;
    }
    if k, i, f :| 0 <= k <= i < |lines| && lines[k] == Under(sources) && (forall m :: k < m <= i ==> lines[m].Reads?)
                  && f in (if i == k then sources else lines[i].paths) && f in changed {
      RootNamed(lines, k, i + 1);
      assert f in PathsOf(lines[i]) && Touches(lines[i], changed);
    }
  }

  lemma {:induction false} WriterNamed(writes: seq<Write>, start: Root, k: nat, n: nat)
    requires k < n <= |writes| && writes[k].From? && forall m :: k < m < n ==> writes[m].Writes?
    ensures WriterAfter(writes, start, n) == Some(writes[k].sources)
  {
    if k < n - 1 { WriterNamed(writes, start, k, n - 1); }
  }

  lemma {:induction false} NoWriterYet(writes: seq<Write>, start: Root, n: nat)
    requires n <= |writes| && forall m :: 0 <= m < n ==> writes[m].Writes?
    ensures WriterAfter(writes, start, n) == start
  {
    if n > 0 { NoWriterYet(writes, start, n - 1); }
  }

  lemma {:induction false} LastFrom(writes: seq<Write>, n: nat)
    requires n <= |writes|
    ensures (forall m :: 0 <= m < n ==> writes[m].Writes?) ||
            exists k :: 0 <= k < n && writes[k].From? && forall m :: k < m < n ==> writes[m].Writes?
  {
    if n > 0 && writes[n - 1].Writes? { LastFrom(writes, n - 1); }
  }

  /** The i-th line of a write trace writes this output under this root: the one named last, or the given one before any. */
  ghost predicate WrittenAt(writes: seq<Write>, start: Root, i: nat, root: Root, output: Path)
    requires i < |writes|
  {
    && writes[i] == Writes(output)
    && ((root == start && forall m :: 0 <= m < i ==> writes[m].Writes?) ||
        exists k :: 0 <= k < i && writes[k].From? && root == Some(writes[k].sources) && forall m :: k < m < i ==> writes[m].Writes?)
  }

  lemma WrittenThere(writes: seq<Write>, start: Root, i: nat, root: Root)
    requires i < |writes| && writes[i].Writes?
    ensures WrittenAt(writes, start, i, root, writes[i].output) <==> root == WriterAfter(writes, start, i)
  {
    hide WriterAfter;
    LastFrom(writes, i);
    if forall m :: 0 <= m < i ==> writes[m].Writes? { NoWriterYet(writes, start, i); }
    forall k | 0 <= k < i && writes[k].From? && forall m :: k < m < i ==> writes[m].Writes?
      ensures WriterAfter(writes, start, i) == Some(writes[k].sources)
    {
      WriterNamed(writes, start, k, i);
    }
  }

  /** Every line that writes adds its output to the batch of the root in force there, and nothing else is in a batch. */
  lemma {:induction false} BatchExactly(writes: seq<Write>, start: Root, n: nat, root: Root, output: Path)
    requires n <= |writes|
    ensures (root, output) in Batch(writes, start, n) <==> exists i :: 0 <= i < n && WrittenAt(writes, start, i, root, output)
  {
    if n > 0 {
      BatchExactly(writes, start, n - 1, root, output);
      if writes[n - 1].Writes? { WrittenThere(writes, start, n - 1, root); }
      hide WrittenAt;
      assert WrittenAt(writes, start, n - 1, root, output) ==> writes[n - 1] == Writes(output) by { WrittenIsWrites(writes, start, n - 1, root, output); }
    }
  }

  /** The writes of a tool, line by line; before the first root line they belong to the last root of the read trace. */
  lemma WrittenExactly(tool: Tool, root: Root, output: Path)
    ensures (root, output) in Written(tool) <==>
              exists i :: 0 <= i < |tool.writeTrace| &&
                          WrittenAt(tool.writeTrace, RootAfter(tool.readTrace, |tool.readTrace|), i, root, output)
  {
    hide WrittenAt;
    var start := RootAfter(tool.readTrace, |tool.readTrace|);
    BatchExactly(tool.writeTrace, start, |tool.writeTrace|, root, output);
    assert Written(tool) == Batch(tool.writeTrace, start, |tool.writeTrace|);
    assert forall i :: 0 <= i < |tool.writeTrace| ==>
      WrittenAt(tool.writeTrace, start, i, root, output) == WrittenAt(tool.writeTrace, RootAfter(tool.readTrace, |tool.readTrace|), i, root, output);
  }

  lemma WrittenIsWrites(writes: seq<Write>, start: Root, i: nat, root: Root, output: Path)
    requires i < |writes|
    ensures WrittenAt(writes, start, i, root, output) ==> writes[i] == Writes(output)
  {
  }

  /** This line maps an ".OBJ" below the directory. */
  predicate MapsObject(item: Item, directory: Path) {
    item.Maps? && directory + "/" <= item.object_ && |item.object_| >= 4 && item.object_[|item.object_| - 4..] == ".OBJ"
  }

  /** Every line maps another ".OBJ" below the directory to another source. */
  ghost predicate Usable(items: seq<Item>, directory: Path) {
    && (forall i :: 0 <= i < |items| ==> MapsObject(items[i], directory))
    && (forall i, j :: 0 <= i < j < |items| ==> Apart(items[i], items[j]))
  }

  predicate Apart(a: Item, b: Item) {
    a.Maps? && b.Maps? ==> a.object_ != b.object_ && a.source != b.source
  }

  lemma {:induction false} UsableExactly(items: seq<Item>, directory: Path)
    ensures ItemMap(items, directory).0 <==> Usable(items, directory)
  {
    hide Usable, Fits;
    if items != [] {
      UsableExactly(items[..|items| - 1], directory);
      UsableStep(items, directory);
      if ItemMap(items[..|items| - 1], directory).0 { FitsExactly(items, directory); }
    } else {
      NothingToUse(directory);
    }
  }

  lemma NothingToUse(directory: Path)
    ensures Usable([], directory)
  {
  }

  lemma UsableStep(items: seq<Item>, directory: Path)
    requires items != []
    ensures var k := |items| - 1;
            Usable(items, directory) <==>
              && Usable(items[..k], directory) && MapsObject(items[k], directory)
              && forall i :: 0 <= i < k ==> Apart(items[i], items[k])
  {
    hide MapsObject, Apart;
    var k := |items| - 1;
    assert forall i :: 0 <= i < k ==> items[..k][i] == items[i];
  }

  lemma FitsExactly(items: seq<Item>, directory: Path)
    requires items != [] && ItemMap(items[..|items| - 1], directory).0
    ensures var (_, objects, sources) := ItemMap(items[..|items| - 1], directory);
            var k := |items| - 1;
            Fits(items[k], objects, sources, directory) <==> MapsObject(items[k], directory) && forall i :: 0 <= i < k ==> Apart(items[i], items[k])
  {
    hide ItemMap, Apart;
    var rest, last := items[..|items| - 1], items[|items| - 1];
    ItemMapIs(rest, directory);
    var (_, objects, sources) := ItemMap(rest, directory);
    if last.Maps? { NewExactly(rest, last, objects, sources); }
    assert forall i :: 0 <= i < |rest| ==> rest[i] == items[i];
  }

  lemma NewExactly(rest: seq<Item>, last: Item, objects: map<Path, Path>, sources: set<Path>)
    requires forall s, f :: Maps(s, f) in rest <==> f in objects && objects[f] == s
    requires forall s :: s in sources <==> exists f :: Maps(s, f) in rest
    requires last.Maps?
    ensures last.object_ !in objects && last.source !in sources <==> forall i :: 0 <= i < |rest| ==> Apart(rest[i], last)
  {
    if i :| 0 <= i < |rest| && !Apart(rest[i], last) {
      assert Maps(rest[i].source, rest[i].object_) in rest;
    }
    if last.object_ in objects {
      var i :| 0 <= i < |rest| && rest[i] == Maps(objects[last.object_], last.object_);
      assert !Apart(rest[i], last);
    }
    if last.source in sources {
      var f :| Maps(last.source, f) in rest;
      var i :| 0 <= i < |rest| && rest[i] == Maps(last.source, f);
      assert !Apart(rest[i], last);
    }
  }

  /** What a usable object map holds: every line of it and nothing else. */
  lemma {:induction false} ItemMapIs(items: seq<Item>, directory: Path)
    requires ItemMap(items, directory).0
    ensures var (_, objects, sources) := ItemMap(items, directory);
            && (forall s, f :: Maps(s, f) in items <==> f in objects && objects[f] == s)
            && (forall s :: s in sources <==> exists f :: Maps(s, f) in items)
  {
    if items != [] {
      var k := |items| - 1;
      hide IsObject;
      ItemMapIs(items[..k], directory);
      assert items == items[..k] + [items[k]];
      var (_, objects, sources) := ItemMap(items, directory);
      assert Maps(items[k].source, items[k].object_) in items;
    }
  }

  /**
    What a batch loses: an output written under a root that is affected, or of which a
    source is when compiled alone. If the object map is usable, knows each of the batch's
    sources and maps each of its objects to one of them, then, unless the root itself is
    affected, only the objects whose own source is.
  */
  lemma LosesExactly(tool: Tool, changed: set<Path>, directory: Path, root: Root, output: Path)
    ensures var own := if root.Some? then root.value else [];
            var items := if tool.items.Some? then tool.items.value else [];
            Loses(tool, changed, directory, root, output) <==>
              && (root, output) in Written(tool) && (tool.compiler ==> IsObject(output))
              && (Affected(tool.readTrace, changed, root) || exists s :: s in own && Affected(tool.readTrace, changed, Some([s])))
              && (tool.compiler && tool.items.Some? && Usable(items, directory) && !Affected(tool.readTrace, changed, root)
                  && (forall s :: s in own ==> exists f :: Maps(s, f) in items)
                  && (forall f :: (root, f) in Written(tool) && IsObject(f) ==> exists s :: s in own && Maps(s, f) in items)
                  ==> exists s :: Maps(s, output) in items && Affected(tool.readTrace, changed, Some([s])))
    ensures IsObject(output) <==> |output| >= 4 && output[|output| - 4..] == ".OBJ"
  {
    NarrowExactly(tool, changed, directory, root);
    if Narrow(tool, changed, directory, root) { ItemMapIs(tool.items.value, directory); }
    hide Affected, Usable, Written, ItemMap, IsObject;
    assert IsObject(output) <==> EndsWith(output, ".OBJ");
  }

  lemma NarrowExactly(tool: Tool, changed: set<Path>, directory: Path, root: Root)
    ensures var items := if tool.items.Some? then tool.items.value else [];
            Narrow(tool, changed, directory, root) <==>
              && tool.compiler && tool.items.Some? && Usable(items, directory) && !Affected(tool.readTrace, changed, root)
              && (forall s :: s in Sources(root) ==> exists f :: Maps(s, f) in items)
              && (forall f :: (root, f) in Written(tool) && IsObject(f) ==> exists s :: s in Sources(root) && Maps(s, f) in items)
  {
    hide Affected, Usable, Written, ItemMap, IsObject;
    var items := if tool.items.Some? then tool.items.value else [];
    UsableExactly(items, directory);
    if ItemMap(items, directory).0 { ItemMapIs(items, directory); }
  }

  datatype Outcome = Completed | Refused

  class Cache {
    const directory: Path
    var files: set<Path>
    /** Files that something else holds open. */
    const busy: set<Path>

    constructor (directory: Path, files: set<Path>, busy: set<Path>)
      ensures this.directory == directory && this.files == files && this.busy == busy
    {
      this.directory, this.files, this.busy := directory, files, busy;
    }

    predicate Owned(f: Path) {
      directory + "/" <= f
    }

    /** Why an output cannot be deleted: it is outside the cache, or it is there and held open. */
    predicate Obstructed(f: Path, present: set<Path>) {
      !Owned(f) || (f in present && f in busy)
    }

    lemma StillObstructed(f: Path, now: set<Path>, present: set<Path>)
      requires Obstructed(f, now) && now <= present
      ensures Obstructed(f, present)
    {
    }

    /** The files whose recorded content differs, and those that are new or gone. */
    method ChangedFiles(prior: map<Path, string>, next: map<Path, string>) returns (changed: set<Path>)
      ensures forall path :: path in changed <==>
                (path in prior && path !in next) || (path in next && (path in prior ==> prior[path] != next[path]))
    {
      changed := {};
      var rest := next.Keys;
      while rest != {}
        invariant rest <= next.Keys
        invariant forall path :: path in changed <==> path in next.Keys - rest && (path in prior ==> prior[path] != next[path])
        decreases |rest|
      {
        var path :| path in rest;
        if !(path in prior && prior[path] == next[path]) {
          changed := changed + {path};
        }
        rest := rest - {path};
      }
      rest := prior.Keys;
      while rest != {}
        invariant rest <= prior.Keys
        invariant forall path :: path in changed <==>
          (path in prior.Keys - rest && path !in next) || (path in next && (path in prior ==> prior[path] != next[path]))
        decreases |rest|
      {
        var path :| path in rest;
        if path !in next {
          changed := changed + {path};
        }
        rest := rest - {path};
      }
    }

    /** The affected roots, and the root that is in force after the last line. */
    method AffectedRoots(lines: seq<Line>, changed: set<Path>) returns (affected: set<Root>, key: Root)
      ensures forall root :: root in affected <==> Affected(lines, changed, root)
      ensures key == RootAfter(lines, |lines|)
    {
      affected, key := {}, None;
      for i := 0 to |lines|
        invariant key == RootAfter(lines, i)
        invariant forall root :: root in affected <==>
          exists k :: 0 <= k < i && RootAfter(lines, k + 1) == root && Touches(lines[k], changed)
      {
        ghost var before := affected;
        if lines[i].Under? {
          key := Some(lines[i].sources);
        }
        assert key == RootAfter(lines, i + 1);
        var paths := PathsOf(lines[i]);
        for j := 0 to |paths|
          invariant affected == before + (if exists n :: 0 <= n < j && paths[n] in changed then {key} else {})
        {
          if paths[j] in changed {
            affected := affected + {key};
          }
        }
      }
    }

    /** The object map; it narrows nothing unless every line of it can be used. */
    method ReadItems(items: seq<Item>) returns (mapped: bool, objects: map<Path, Path>, sources: set<Path>)
      ensures (mapped, objects, sources) == ItemMap(items, directory)
    {
      mapped, objects, sources := true, map[], {};
      for i := 0 to |items|
        invariant (mapped, objects, sources) == ItemMap(items[..i], directory) && mapped
      {
        assert items[..i + 1][..i] == items[..i];
        if !Fits(items[i], objects, sources, directory) {
          mapped := false;
          UnusableStays(items, directory, i + 1);
          return;
        }
        objects, sources := objects[items[i].object_ := items[i].source], sources + {items[i].source};
      }
      assert items[..|items|] == items;
    }

    method ReadWrites(writes: seq<Write>, start: Root) returns (batches: map<Root, seq<Path>>)
      ensures forall root, output :: root in batches && output in batches[root] <==> (root, output) in Batch(writes, start, |writes|)
    {
      batches := map[];
      var key := start;
      for i := 0 to |writes|
        invariant key == WriterAfter(writes, start, i)
        invariant forall root, output :: root in batches && output in batches[root] <==> (root, output) in Batch(writes, start, i)
      {
        match writes[i]
        case From(sources) =>
          key := Some(sources);
        case Writes(output) =>
          batches := batches[key := (if key in batches then batches[key] else []) + [output]];
      }
    }

    /** Delete what a hit batch has to lose. */
    method InvalidateBatch(tool: Tool, ghost changed: set<Path>, affected: set<Root>, mapped: bool, objects: map<Path, Path>,
                           sources: set<Path>, root: Root, outputs: seq<Path>) returns (o: Outcome)
      requires forall r :: r in affected <==> Affected(tool.readTrace, changed, r)
      requires mapped == Mapped(tool, directory) && objects == Objects(tool, directory)
      requires mapped ==> sources == ItemMap(tool.items.value, directory).2
      requires forall f :: f in outputs <==> (root, f) in Written(tool)
      modifies `files
      ensures files <= old(files)
      ensures forall f :: f in old(files) - files ==> directory + "/" <= f && f !in busy && Loses(tool, changed, directory, root, f)
      ensures o.Completed? ==> forall f :: f in files ==> !Loses(tool, changed, directory, root, f)
      ensures o.Refused? <==>
                exists f :: Loses(tool, changed, directory, root, f) && (!(directory + "/" <= f) || (f in old(files) && f in busy))
    {
      assert mapped ==> tool.compiler;
      hide Affected, ItemMap, Batch, WriterAfter, RootAfter, Objects, Mapped, IsObject, Written;
      var hit, selective := root in affected, mapped && root !in affected;
      var own := Sources(root);
      for i := 0 to |own|
        invariant hit <==> root in affected || exists k :: 0 <= k < i && Some([own[k]]) in affected
        invariant selective <==> mapped && root !in affected && forall k :: 0 <= k < i ==> own[k] in sources
      {
        hit := hit || Some([own[i]]) in affected;
        selective := selective && own[i] in sources;
      }
      assert hit <==> Hit(tool, changed, root);
      if !hit {
        return Completed;
      }
      ghost var before := selective;
      for i := 0 to |outputs|
        invariant selective <==> before && forall k :: 0 <= k < i && IsObject(outputs[k]) ==> Explained(tool, directory, root, outputs[k])
      {
        if IsObject(outputs[i]) {
          selective := selective && outputs[i] in objects && objects[outputs[i]] in own;
        }
      }
      assert selective <==> Narrow(tool, changed, directory, root);
      hide Narrow, Hit, Explained;
      for i := 0 to |outputs|
        invariant files <= old(files)
        invariant forall f :: f in old(files) - files ==> Owned(f) && f !in busy && Loses(tool, changed, directory, root, f)
        invariant forall k :: 0 <= k < i && outputs[k] in files ==> !Loses(tool, changed, directory, root, outputs[k])
        invariant forall k :: 0 <= k < i && Loses(tool, changed, directory, root, outputs[k]) ==> !Obstructed(outputs[k], old(files))
      {
        var output := outputs[i];
        if tool.compiler && !IsObject(output) {
          continue;
        }
        if selective {
          NarrowExplains(tool, changed, directory, root, output);
          if Some([objects[output]]) !in affected {
            continue;
          }
        }
        if !Owned(output) || (output in files && output in busy) {
          assert Loses(tool, changed, directory, root, output);
          return Refused;
        }
        files := files - {output};
      }
      o := Completed;
    }

    /** One traced tool: its affected roots, its object map, its batches. */
    method InvalidateTool(tool: Tool, changed: set<Path>) returns (o: Outcome)
      modifies `files
      ensures files <= old(files)
      ensures forall f :: f in old(files) - files ==> Owned(f) && f !in busy && LostBy(tool, changed, directory, f)
      ensures o.Completed? ==> forall f :: f in files ==> !LostBy(tool, changed, directory, f)
      ensures o.Refused? <==> exists f :: LostBy(tool, changed, directory, f) && Obstructed(f, old(files))
    {
      hide Affected, Narrow, ItemMap, Batch, WriterAfter;
      var affected, key := AffectedRoots(tool.readTrace, changed);
      var mapped, objects, sources: set<Path> := false, map[], {};
      if tool.compiler && tool.items.Some? {
        mapped, objects, sources := ReadItems(tool.items.value);
      }
      var batches := ReadWrites(tool.writeTrace, key);
      var rest := batches.Keys;
      while rest != {}
        invariant rest <= batches.Keys && files <= old(files)
        invariant forall f :: f in old(files) - files ==> Owned(f) && f !in busy && LostBy(tool, changed, directory, f)
        invariant forall root, f :: root in batches.Keys - rest && f in files ==> !Loses(tool, changed, directory, root, f)
        invariant forall root, f :: root in batches.Keys - rest && Loses(tool, changed, directory, root, f) ==> !Obstructed(f, old(files))
        decreases |rest|
      {
        var root :| root in rest;
        ghost var before := files;
        o := InvalidateBatch(tool, changed, affected, mapped, objects, sources, root, batches[root]);
        assert forall f :: f in old(files) - files ==> f in old(files) - before || Loses(tool, changed, directory, root, f);
        if o.Refused? {
          ghost var f :| Loses(tool, changed, directory, root, f) && Obstructed(f, before);
          StillObstructed(f, before, old(files));
          assert LostBy(tool, changed, directory, f);
          return;
        }
        rest := rest - {root};
      }
      o := Completed;
    }

    /** invalidateObjects: exactly the outputs that some batch of some tool loses are deleted. */
    method InvalidateObjects(tools: seq<Tool>, prior: map<Path, string>, next: map<Path, string>) returns (o: Outcome, changed: set<Path>)
      modifies `files
      ensures forall path :: path in changed <==>
                (path in prior && path !in next) || (path in next && (path in prior ==> prior[path] != next[path]))
      ensures files <= old(files)
      ensures forall f :: f in old(files) - files ==>
        Owned(f) && f !in busy && exists i :: 0 <= i < |tools| && LostBy(tools[i], changed, directory, f)
      ensures o.Completed? ==> forall i, f :: 0 <= i < |tools| && f in files ==> !LostBy(tools[i], changed, directory, f)
      ensures forall f :: f in old(files) - files ==>
        exists i, root :: 0 <= i < |tools| && Conservative(tools[i], changed, root, f)
      ensures o.Completed? ==> forall i :: 0 <= i < |tools| ==> Fresh(tools[i], changed)
      ensures o.Refused? <==>
        exists i, f :: 0 <= i < |tools| && LostBy(tools[i], changed, directory, f) && Obstructed(f, old(files))
    {
      changed := ChangedFiles(prior, next);
      hide LostBy, Fresh, Conservative;
      for i := 0 to |tools|
        invariant files <= old(files)
        invariant forall f :: f in old(files) - files ==>
          Owned(f) && f !in busy && exists k :: 0 <= k < i && LostBy(tools[k], changed, directory, f)
        invariant forall k, f :: 0 <= k < i && f in files ==> !LostBy(tools[k], changed, directory, f)
        invariant forall k, f :: 0 <= k < i && LostBy(tools[k], changed, directory, f) ==> !Obstructed(f, old(files))
      {
        ghost var before := files;
        o := InvalidateTool(tools[i], changed);
        assert forall f :: f in old(files) - files ==> f in old(files) - before || LostBy(tools[i], changed, directory, f);
        if o.Refused? {
          ghost var f :| LostBy(tools[i], changed, directory, f) && Obstructed(f, before);
          StillObstructed(f, before, old(files));
          LostConservatively(tools, changed, old(files) - files);
          return;
        }
      }
      LostConservatively(tools, changed, old(files) - files);
      forall i | 0 <= i < |tools|
        ensures Fresh(tools[i], changed)
      {
        KeptIsFresh(tools[i], changed);
      }
      o := Completed;
    }

    /** Every output that this tool wrote and that is still there is up to date. */
    ghost predicate Fresh(tool: Tool, changed: set<Path>)
      reads this
    {
      forall root, f :: (root, f) in Written(tool) && f in files && (tool.compiler ==> IsObject(f)) ==>
        UpToDate(tool, changed, Objects(tool, directory), root, f)
    }

    lemma KeptIsFresh(tool: Tool, changed: set<Path>)
      requires forall f :: f in files ==> !LostBy(tool, changed, directory, f)
      ensures Fresh(tool, changed)
    {
      hide UpToDate, Written, IsObject;
      forall root, f | (root, f) in Written(tool) && f in files && (tool.compiler ==> IsObject(f))
        ensures UpToDate(tool, changed, Objects(tool, directory), root, f)
      {
        hide Loses;
        KeptIsUpToDate(tool, changed, directory, root, f);
      }
    }

    lemma LostConservatively(tools: seq<Tool>, changed: set<Path>, lost: set<Path>)
      requires forall f :: f in lost ==> exists i :: 0 <= i < |tools| && LostBy(tools[i], changed, directory, f)
      ensures forall f :: f in lost ==> exists i, root :: 0 <= i < |tools| && Conservative(tools[i], changed, root, f)
    {
      hide Conservative, Narrow;
      forall f | f in lost
        ensures exists i, root :: 0 <= i < |tools| && Conservative(tools[i], changed, root, f)
      {
        var i :| 0 <= i < |tools| && LostBy(tools[i], changed, directory, f);
        var root :| Loses(tools[i], changed, directory, root, f);
        assert Conservative(tools[i], changed, root, f);
      }
    }
  }

  lemma NarrowExplains(tool: Tool, changed: set<Path>, directory: Path, root: Root, output: Path)
    requires Narrow(tool, changed, directory, root) && (root, output) in Written(tool) && IsObject(output)
    ensures Explained(tool, directory, root, output) && output in Objects(tool, directory)
  {
  }

  /** An object is deleted when a changed file was read under its batch's root, or under its own source's when compiled alone. */
  lemma StaleIsLost(tool: Tool, changed: set<Path>, directory: Path, root: Root, output: Path, i: nat)
    requires i < |tool.readTrace| && Touches(tool.readTrace[i], changed)
    requires (root, output) in Written(tool) && (tool.compiler ==> IsObject(output)) && Explained(tool, directory, root, output)
    requires RootAfter(tool.readTrace, i + 1) == root || RootAfter(tool.readTrace, i + 1) == Some([Objects(tool, directory)[output]])
    ensures Loses(tool, changed, directory, root, output)
  {
    hide ItemMap, Batch, IsObject;
    if !Loses(tool, changed, directory, root, output) {
      KeptIsUpToDate(tool, changed, directory, root, output);
    }
  }
}
