/** The index of test files, which rereads a file only when its modification time has changed
    (apps/vscode-extension/src/extension/filesystem/TestFileIndex.ts). */
module TestFileIndex {
  import opened Option

  datatype Parsed = Parsed(describeBlocks: seq<string>, acIds: set<string>, testTitles: seq<string>)

  datatype Snapshot = Snapshot(filePath: string, relativePath: string, content: string, mtime: int, parsed: Parsed)

  datatype CacheEntry = CacheEntry(mtime: int, snapshot: Snapshot)

  type Cache = map<string, CacheEntry>

  /** The path and pattern operations, taken as they are. */
  datatype Host = Host(relative: (string, string) -> string, parse: string -> Parsed)

  /** What the disk answers during one call; a call that throws answers None. */
  datatype Disk = Disk(scan: string -> seq<string>, stat: string -> Option<int>, read: string -> Option<string>)

  function BuildSnapshot(h: Host, root: string, path: string, content: string, mtime: int): Snapshot {
    Snapshot(path, h.relative(root, path), content, mtime, h.parse(content))
  }

  // ----- One call -----

  predicate Hit(cache: Cache, path: string, mtime: int) {
    path in cache && cache[path].mtime == mtime
  }

  /** The entry a call ends up with for a path, None when it skips the path. */
  function Visit(h: Host, d: Disk, cache: Cache, root: string, path: string): Option<CacheEntry> {
    match d.stat(path)
    case None => None
    case Some(mtime) =>
      if Hit(cache, path, mtime) then Some(cache[path])
      else
        match d.read(path)
        case None => None
        case Some(content) => Some(CacheEntry(mtime, BuildSnapshot(h, root, path, content, mtime)))
  }

  function Results(h: Host, d: Disk, cache: Cache, root: string, paths: seq<string>): seq<Snapshot> {
    if paths == [] then []
    else
      var n := |paths| - 1;
      var entry := Visit(h, d, cache, root, paths[n]);
      Results(h, d, cache, root, paths[..n]) + (if entry.Some? then [entry.value.snapshot] else [])
  }

  function NextCache(h: Host, d: Disk, cache: Cache, root: string, paths: seq<string>): Cache {
    if paths == [] then map[]
    else
      var n := |paths| - 1;
      var entry := Visit(h, d, cache, root, paths[n]);
      var front := NextCache(h, d, cache, root, paths[..n]);
      if entry.Some? then front[paths[n] := entry.value] else front
  }

  /** The files a call opens: those it can stat and has no current entry for. */
  function Opened(d: Disk, cache: Cache, paths: seq<string>): seq<string> {
    if paths == [] then []
    else
      var n := |paths| - 1;
      var stat := d.stat(paths[n]);
      Opened(d, cache, paths[..n]) + (if stat.Some? && !Hit(cache, paths[n], stat.value) then [paths[n]] else [])
  }

  /** No cache at all: every readable file is rebuilt. */
  function Rebuild(h: Host, d: Disk, root: string, paths: seq<string>): seq<Snapshot> {
    Results(h, d, map[], root, paths)
  }

  /** Every cached entry that is still current holds what the disk holds. */
  ghost predicate HitsAgree(h: Host, d: Disk, cache: Cache, root: string, paths: seq<string>) {
    forall p :: p in paths ==> Visit(h, d, cache, root, p) == Visit(h, d, map[], root, p)
  }

  lemma {:induction false} CacheNeverShortens(h: Host, d: Disk, cache: Cache, root: string, paths: seq<string>)
    ensures |Rebuild(h, d, root, paths)| <= |Results(h, d, cache, root, paths)|
  {
    if paths != [] {
      CacheNeverShortens(h, d, cache, root, paths[..|paths| - 1]);
    }
  }

  ghost predicate WellFormed(cache: Cache) {
    forall p :: p in cache ==> cache[p].snapshot.mtime == cache[p].mtime
  }

  lemma VisitsDifferIff(h: Host, d: Disk, cache: Cache, root: string, path: string)
    requires WellFormed(cache)
    ensures var kept, rebuilt := Visit(h, d, cache, root, path), Visit(h, d, map[], root, path);
            && (rebuilt.Some? ==> kept.Some?)
            && (kept == rebuilt <==>
                kept.Some? == rebuilt.Some? && (kept.Some? ==> kept.value.snapshot == rebuilt.value.snapshot))
  {
  }

  lemma LastDiffers<T>(xs: seq<T>, ys: seq<T>, x: seq<T>, y: seq<T>)
    requires |x| == |y|
    ensures xs + x == ys + y <==> xs == ys && x == y
  {
    if xs + x == ys + y {
      assert |xs| == |ys|;
      assert (xs + x)[..|xs|] == xs && (ys + y)[..|ys|] == ys;
      assert (xs + x)[|xs|..] == x && (ys + y)[|ys|..] == y;
    }
  }

  /** One call returns what a rebuild would exactly when its current entries agree with the disk. */
  lemma {:induction false} CacheIsExactIff(h: Host, d: Disk, cache: Cache, root: string, paths: seq<string>)
    requires WellFormed(cache)
    ensures Results(h, d, cache, root, paths) == Rebuild(h, d, root, paths) <==> HitsAgree(h, d, cache, root, paths)
  {
    if paths != [] {
      var n := |paths| - 1;
      var front, p := paths[..n], paths[n];
      assert paths == front + [p];
      CacheIsExactIff(h, d, cache, root, front);
      CacheNeverShortens(h, d, cache, root, front);
      VisitsDifferIff(h, d, cache, root, p);
      var kept, rebuilt := Visit(h, d, cache, root, p), Visit(h, d, map[], root, p);
      assert HitsAgree(h, d, cache, root, paths) <==> HitsAgree(h, d, cache, root, front) && kept == rebuilt;
      if kept.Some? == rebuilt.Some? {
        LastDiffers(Results(h, d, cache, root, front), Rebuild(h, d, root, front),
                    if kept.Some? then [kept.value.snapshot] else [], if rebuilt.Some? then [rebuilt.value.snapshot] else []);
      }
    }
  }

  // ----- Histories -----

  datatype State = State(cache: Cache, root: Option<string>)

  datatype Event = Clear | Snapshots(disk: Disk, root: string)

  const EMPTY := State(map[], None)

  /** The cache a call starts from: a different root clears it. */
  function Carried(s: State, root: string): Cache {
    if s.root == Some(root) then s.cache else map[]
  }

  function Step(h: Host, s: State, e: Event): State {
    match e
    case Clear => EMPTY
    case Snapshots(d, root) => State(NextCache(h, d, Carried(s, root), root, d.scan(root)), Some(root))
  }

  function Run(h: Host, events: seq<Event>): State {
    if events == [] then EMPTY else Step(h, Run(h, events[..|events| - 1]), events[|events| - 1])
  }

  /** What a path holds at a modification time, None if it cannot be read then. */
  type World = (string, int) -> Option<string>

  /** The modification time of a file determines what reading it gives. */
  ghost predicate Follows(d: Disk, w: World) {
    forall p :: d.stat(p).Some? ==> d.read(p) == w(p, d.stat(p).value)
  }

  ghost predicate AllFollow(events: seq<Event>, w: World) {
    forall e :: e in events && e.Snapshots? ==> Follows(e.disk, w)
  }

  ghost predicate EntryIsTrue(h: Host, w: World, root: string, path: string, entry: CacheEntry) {
    && w(path, entry.mtime).Some?
    && entry.snapshot == BuildSnapshot(h, root, path, w(path, entry.mtime).value, entry.mtime)
  }

  ghost predicate CacheIsTrue(h: Host, w: World, root: string, cache: Cache) {
    forall p :: p in cache ==> EntryIsTrue(h, w, root, p, cache[p])
  }

  ghost predicate Inv(h: Host, w: World, s: State) {
    if s.root.None? then s.cache == map[] else CacheIsTrue(h, w, s.root.value, s.cache)
  }

  lemma VisitIsTrue(h: Host, w: World, d: Disk, cache: Cache, root: string, path: string)
    requires Follows(d, w) && CacheIsTrue(h, w, root, cache)
    ensures Visit(h, d, cache, root, path) == Visit(h, d, map[], root, path)
    ensures Visit(h, d, cache, root, path).Some? ==>
              EntryIsTrue(h, w, root, path, Visit(h, d, cache, root, path).value)
  {
    if d.stat(path).Some? {
      assert d.read(path) == w(path, d.stat(path).value);
    }
  }

  lemma {:induction false} NextCacheIsTrue(h: Host, w: World, d: Disk, cache: Cache, root: string, paths: seq<string>)
    requires Follows(d, w) && CacheIsTrue(h, w, root, cache)
    ensures CacheIsTrue(h, w, root, NextCache(h, d, cache, root, paths))
  {
    if paths != [] {
      var n := |paths| - 1;
      NextCacheIsTrue(h, w, d, cache, root, paths[..n]);
      VisitIsTrue(h, w, d, cache, root, paths[n]);
    }
  }

  lemma {:induction false} RunKeepsInv(h: Host, w: World, events: seq<Event>)
    requires AllFollow(events, w)
    ensures Inv(h, w, Run(h, events))
  {
    if events != [] {
      var front, e := events[..|events| - 1], events[|events| - 1];
      assert e in events && forall x :: x in front ==> x in events;
      RunKeepsInv(h, w, front);
      if e.Snapshots? {
        NextCacheIsTrue(h, w, e.disk, Carried(Run(h, front), e.root), e.root, e.disk.scan(e.root));
      }
    }
  }

  /** Cache agrees with no cache: after any history of calls, clears and changes of root over a disk whose
      modification times tell its contents apart, a call returns what rebuilding every readable file would. */
  lemma CacheAgreesWithNoCache(h: Host, w: World, events: seq<Event>, d: Disk, root: string)
    requires AllFollow(events, w) && Follows(d, w)
    ensures Results(h, d, Carried(Run(h, events), root), root, d.scan(root)) == Rebuild(h, d, root, d.scan(root))
  {
    var cache := Carried(Run(h, events), root);
    RunKeepsInv(h, w, events);
    assert CacheIsTrue(h, w, root, cache);
    forall p | p in d.scan(root)
      ensures Visit(h, d, cache, root, p) == Visit(h, d, map[], root, p)
    {
      VisitIsTrue(h, w, d, cache, root, p);
    }
    assert WellFormed(cache);
    CacheIsExactIff(h, d, cache, root, d.scan(root));
  }

  /** The cache never keeps a path absent from the latest scan, and keeps each visited path's entry. */
  lemma {:induction false} NextCacheHolds(h: Host, d: Disk, cache: Cache, root: string, paths: seq<string>)
    ensures forall p :: p in NextCache(h, d, cache, root, paths)
                        <==> p in paths && Visit(h, d, cache, root, p).Some?
    ensures forall p :: p in NextCache(h, d, cache, root, paths)
                        ==> Visit(h, d, cache, root, p) == Some(NextCache(h, d, cache, root, paths)[p])
  {
    if paths != [] {
      var n := |paths| - 1;
      assert paths == paths[..n] + [paths[n]];
      NextCacheHolds(h, d, cache, root, paths[..n]);
    }
  }

  /** A second call on an unchanged disk opens only the files that could not be read the first time. */
  lemma SecondCallOpensOnlyUnreadable(h: Host, d: Disk, cache: Cache, root: string, paths: seq<string>, p: string)
    requires WellFormed(cache)
    requires p in Opened(d, NextCache(h, d, cache, root, paths), paths)
    ensures d.stat(p).Some? && d.read(p).None?
  {
    var next := NextCache(h, d, cache, root, paths);
    NextCacheHolds(h, d, cache, root, paths);
    OpenedIff(d, next, paths, p);
  }

  lemma {:induction false} OpenedIff(d: Disk, cache: Cache, paths: seq<string>, p: string)
    ensures p in Opened(d, cache, paths) <==> p in paths && d.stat(p).Some? && !Hit(cache, p, d.stat(p).value)
  {
    if paths != [] {
      var n := |paths| - 1;
      assert paths == paths[..n] + [paths[n]];
      OpenedIff(d, cache, paths[..n], p);
    }
  }

  // ----- The class -----

  class TestFileIndex {
    var cacheByPath: Cache
    var root: Option<string>

    function Abs(): State
      reads this
    {
      State(cacheByPath, root)
    }

    constructor ()
      ensures Abs() == EMPTY
    {
      cacheByPath, root := map[], None;
    }

    method Clear()
      modifies this
      ensures Abs() == EMPTY
    {
      cacheByPath, root := map[], None;
    }

    /** `opened` records the files the call reads. */
    method Snapshots(h: Host, d: Disk, workspaceRoot: string)
      returns (results: seq<Snapshot>, ghost openedFiles: seq<string>)
      modifies this
      ensures Abs() == Step(h, old(Abs()), Event.Snapshots(d, workspaceRoot))
      ensures results == Results(h, d, Carried(old(Abs()), workspaceRoot), workspaceRoot, d.scan(workspaceRoot))
      ensures openedFiles == Opened(d, Carried(old(Abs()), workspaceRoot), d.scan(workspaceRoot))
    {
      if root != Some(workspaceRoot) {
        Clear();
        root := Some(workspaceRoot);
      }
      ghost var start := cacheByPath;
      var testFiles := d.scan(workspaceRoot);
      var nextCache: Cache := map[];
      results, openedFiles := [], [];
      for i := 0 to |testFiles|
        invariant cacheByPath == start && root == Some(workspaceRoot)
        invariant nextCache == NextCache(h, d, start, workspaceRoot, testFiles[..i])
        invariant results == Results(h, d, start, workspaceRoot, testFiles[..i])
        invariant openedFiles == Opened(d, start, testFiles[..i])
      {
        assert testFiles[..i + 1][..i] == testFiles[..i];
        var path := testFiles[i];
        var stat := d.stat(path);
        if stat.None? {
          continue;
        }
        if path in cacheByPath && cacheByPath[path].mtime == stat.value {
          nextCache := nextCache[path := cacheByPath[path]];
          results := results + [cacheByPath[path].snapshot];
          continue;
        }
        openedFiles := openedFiles + [path];
        var content := d.read(path);
        if content.None? {
          continue;
        }
        var snapshot := BuildSnapshot(h, workspaceRoot, path, content.value, stat.value);
        nextCache := nextCache[path := CacheEntry(stat.value, snapshot)];
        results := results + [snapshot];
      }
      assert testFiles[..|testFiles|] == testFiles;
      cacheByPath := nextCache;
    }
  }
}
