/** The chunked disk store against the memory store. Models internal/storage/disk.go over a shape
    table, a chunk table and a file map, and MemoryStore of internal/storage/store.go. */
module DiskStore {
  import opened Strings

  /** Everything about a persisted shape except its change log. */
  datatype Fields = Fields(hash: string, definition: string, schema: string, snapshot: string, materialized: string,
                           offset: string, generation: nat)

  datatype Persisted = Persisted(fields: Fields, deleted: bool, changes: seq<string>)

  // ---- the memory store ----

  class MemoryStore {
    var shapes: map<string, Persisted>

    constructor ()
      ensures shapes == map[]
    {
      shapes := map[];
    }

    method SaveShape(handle: string, shape: Persisted)
      modifies this
      ensures shapes == old(shapes)[handle := shape]
    {
      shapes := shapes[handle := shape];
    }

    /** Drops the change logs of tombstones. */
    method Compact() returns (removed: nat)
      modifies this
      ensures shapes == Compacted(old(shapes))
    {
      removed := 0;
      var todo := shapes.Keys;
      while todo != {}
        invariant todo <= shapes.Keys == old(shapes).Keys
        invariant forall h | h in shapes ::
            shapes[h] == if h in todo then old(shapes)[h] else WithoutDeadLog(old(shapes)[h])
        decreases |todo|
      {
        var h :| h in todo;
        todo := todo - {h};
        var shape := shapes[h];
        if shape.deleted && |shape.changes| != 0 {
          removed := removed + 1;
          shapes := shapes[h := shape.(changes := [])];
        }
      }
    }
  }

  function WithoutDeadLog(p: Persisted): Persisted
  {
    if p.deleted then p.(changes := []) else p
  }

  function Compacted(shapes: map<string, Persisted>): map<string, Persisted>
  {
    map h | h in shapes :: WithoutDeadLog(shapes[h])
  }

  // ---- paths ----

  const LIMIT: nat := 1_000_000

  function Digits06(n: nat): string
  {
    if n < LIMIT then Padded(n, 6) else FormatNat(n)
  }

  predicate IsPathChar(c: char) { 'a' <= c <= 'z' || 'A' <= c <= 'Z' || IsDigit(c) }

  function Mapped(s: string): (r: string)
    ensures |r| == |s|
    ensures forall i | 0 <= i < |s| :: r[i] == if IsPathChar(s[i]) then s[i] else '_'
  {
    seq(|s|, i requires 0 <= i < |s| => if IsPathChar(s[i]) then s[i] else '_')
  }

  function TrimLeft(s: string): (r: string)
    ensures forall c | c in r :: c in s
  {
    if s != [] && s[0] == '_' then TrimLeft(s[1..]) else s
  }

  function TrimRight(s: string): (r: string)
    ensures forall c | c in r :: c in s
  {
    if s != [] && s[|s| - 1] == '_' then TrimRight(s[..|s| - 1]) else s
  }

  function SanitizePath(handle: string): (r: string)
    ensures '/' !in r
  {
    var t := TrimRight(TrimLeft(Mapped(handle)));
    assert '/' !in Mapped(handle);
    if t == "" then "shape" else t
  }

  lemma {:induction false} TrimLeftEnds(s: string)
    ensures TrimLeft(s) == [] || TrimLeft(s)[0] != '_'
    ensures s == [] || s[0] != '_' <==> TrimLeft(s) == s
    ensures s != [] && s[|s| - 1] != '_' ==> TrimLeft(s) != [] && TrimLeft(s)[|TrimLeft(s)| - 1] == s[|s| - 1]
    ensures |TrimLeft(s)| <= |s|
  {
    if s != [] && s[0] == '_' { TrimLeftEnds(s[1..]); }
  }

  lemma {:induction false} TrimRightEnds(s: string)
    ensures TrimRight(s) == [] || TrimRight(s)[|TrimRight(s)| - 1] != '_'
    ensures s == [] || s[|s| - 1] != '_' <==> TrimRight(s) == s
    ensures TrimRight(s) != [] ==> TrimRight(s)[0] == s[0]
    ensures |TrimRight(s)| <= |s|
  {
    if s != [] && s[|s| - 1] == '_' { TrimRightEnds(s[..|s| - 1]); }
  }

  predicate PathText(s: string)
  {
    forall i | 0 <= i < |s| :: 'a' <= s[i] <= 'z' || 'A' <= s[i] <= 'Z' || '0' <= s[i] <= '9' || s[i] == '_'
  }

  /** A directory name is made of letters, digits and inner underscores, and is not empty; it is the handle itself
      exactly when the handle is already of that form. */
  lemma PathIsHandleIff(h: string)
    ensures var r := SanitizePath(h); r != "" && PathText(r) && r[0] != '_' && r[|r| - 1] != '_'
    ensures SanitizePath(h) == h <==> h != "" && PathText(h) && h[0] != '_' && h[|h| - 1] != '_'
  {
    hide TrimLeft, TrimRight;
    var m := Mapped(h);
    var l := TrimLeft(m);
    TrimLeftEnds(m);
    TrimRightEnds(l);
    var t := TrimRight(l);
    assert PathText(t) by {
      forall i | 0 <= i < |t| ensures 'a' <= t[i] <= 'z' || 'A' <= t[i] <= 'Z' || '0' <= t[i] <= '9' || t[i] == '_' {
        assert t[i] in t && t[i] in l && t[i] in m;
      }
    }
    if h != "" && PathText(h) && h[0] != '_' && h[|h| - 1] != '_' {
      assert m == h;
    }
  }

  function ChunkPath(handle: string, n: nat): string
  {
    SanitizePath(handle) + ['/'] + (Digits06(n) + ".json")
  }

  /** Handles as the manager makes them: ten digest characters, a dash and a number. */
  predicate ManagerHandle(h: string)
  {
    |h| > 11 && h[10] == '-' && (forall i | 0 <= i < 10 :: IsPathChar(h[i])) && AllDigits(h[11..])
  }

  /** Two different handles of the manager never share a chunk directory. */
  lemma ManagerHandlesApart(a: string, b: string)
    requires ManagerHandle(a) && ManagerHandle(b) && SanitizePath(a) == SanitizePath(b)
    ensures a == b
  {
    SanitizedHandle(a);
    SanitizedHandle(b);
    forall i | 0 <= i < |a| ensures a[i] == b[i] {
      assert Mapped(a)[i] == Mapped(b)[i];
      if i > 10 {
        assert a[i] == a[11..][i - 11] && b[i] == b[11..][i - 11];
      }
    }
  }

  lemma SanitizedHandle(h: string)
    requires ManagerHandle(h)
    ensures SanitizePath(h) == Mapped(h)
  {
    var m := Mapped(h);
    assert m[0] == h[0] != '_';
    assert h[11..][|h| - 12] == h[|h| - 1];
    assert m[|m| - 1] == h[|h| - 1] != '_';
  }

  lemma SanitizeCanCollide()
    ensures SanitizePath("a-b") == SanitizePath("a_b")
  {
    assert Mapped("a-b") == "a_b" == Mapped("a_b");
  }

  // ---- path order ----

  function Pow10(w: nat): nat { if w == 0 then 1 else 10 * Pow10(w - 1) }

  lemma {:induction false} PaddedOrder(i: nat, j: nat, w: nat, x: string, y: string)
    requires i < j < Pow10(w)
    ensures Less(Padded(i, w) + x, Padded(j, w) + y)
    decreases w
  {
    var p, q := Padded(i / 10, w - 1), Padded(j / 10, w - 1);
    var a, b := [DigitOf(i % 10)] + x, [DigitOf(j % 10)] + y;
    assert Padded(i, w) + x == p + a && Padded(j, w) + y == q + b;
    if i / 10 < j / 10 {
      PaddedOrder(i / 10, j / 10, w - 1, a, b);
    } else {
      assert i / 10 == j / 10 && i % 10 < j % 10;
      assert a[0] < b[0];
      LessAfterPrefix(p, a, b);
    }
  }

  lemma PathOrder(handle: string, i: nat, j: nat)
    requires i < j < LIMIT
    ensures Less(ChunkPath(handle, i), ChunkPath(handle, j))
  {
    assert Pow10(6) == LIMIT by { assert Pow10(3) == 1000; assert Pow10(6) == 1000 * Pow10(3); }
    PaddedOrder(i, j, 6, ".json", ".json");
    LessAfterPrefix(SanitizePath(handle) + ['/'], Digits06(i) + ".json", Digits06(j) + ".json");
  }

  /** The millionth path sorts before its predecessor. */
  lemma PathOrderBreaks(handle: string)
    ensures Less(ChunkPath(handle, LIMIT), ChunkPath(handle, LIMIT - 1))
  {
    var a, b := FormatNat(LIMIT), Padded(LIMIT - 1, 6);
    LeadingDigit(LIMIT);
    assert a[0] == '1';
    assert b[0] == '9' by {
      assert Padded(999999, 6)[..5] == Padded(99999, 5);
      assert Padded(99999, 5)[..4] == Padded(9999, 4);
      assert Padded(9999, 4)[..3] == Padded(999, 3);
      assert Padded(999, 3)[..2] == Padded(99, 2);
      assert Padded(99, 2)[..1] == Padded(9, 1);
    }
    assert (a + ".json")[0] == '1' && (b + ".json")[0] == '9';
    LessAfterPrefix(SanitizePath(handle) + ['/'], a + ".json", b + ".json");
  }

  lemma LeadingDigit(n: nat)
    requires n == LIMIT
    ensures FormatNat(n)[0] == '1'
  {
    assert FormatNat(10)[..1] == FormatNat(1);
    assert FormatNat(100)[..2] == FormatNat(10);
    assert FormatNat(1000)[..3] == FormatNat(100);
    assert FormatNat(10000)[..4] == FormatNat(1000);
    assert FormatNat(100000)[..5] == FormatNat(10000);
    assert FormatNat(1000000)[..6] == FormatNat(100000);
  }

  lemma PathsApart(a: string, i: nat, b: string, j: nat)
    requires SanitizePath(a) != SanitizePath(b)
    ensures ChunkPath(a, i) != ChunkPath(b, j)
  {
    SplitFirst(SanitizePath(a), '/', Digits06(i) + ".json");
    SplitFirst(SanitizePath(b), '/', Digits06(j) + ".json");
  }

  // ---- the disk as a value ----

  datatype ShapeRow = ShapeRow(fields: Fields, deleted: bool, changeCount: nat)

  datatype ChunkRow = ChunkRow(number: nat, path: string, count: nat)

  /** The shape table, the chunk table (each handle's rows in sequence order) and the files. */
  datatype Disk = Disk(shapes: map<string, ShapeRow>, chunks: map<string, seq<ChunkRow>>, files: map<string, seq<string>>)
  {
    function Rows(h: string): seq<ChunkRow>
    {
      if h in chunks then chunks[h] else []
    }
  }

  function PathsOf(rows: seq<ChunkRow>): (r: seq<string>)
    ensures |r| == |rows|
    ensures forall i | 0 <= i < |rows| :: r[i] == rows[i].path
  {
    seq(|rows|, i requires 0 <= i < |rows| => rows[i].path)
  }

  /** The files of a path list, concatenated; absent when one is missing. */
  function ReadAll(files: map<string, seq<string>>, paths: seq<string>): Option<seq<string>>
  {
    if paths == [] then Some([])
    else
      var n := |paths| - 1;
      match ReadAll(files, paths[..n])
      case None => None
      case Some(before) => if paths[n] in files then Some(before + files[paths[n]]) else None
  }

  function PathSet(rows: seq<ChunkRow>): set<string>
  {
    set p | p in PathsOf(rows)
  }

  /** loadShapeChanges: the paths are sorted as text before they are read. */
  function LoadChanges(d: Disk, h: string): Option<seq<string>>
  {
    ReadAll(d.files, Sorted(PathSet(d.Rows(h))))
  }

  function Total(rows: seq<ChunkRow>): nat
  {
    if rows == [] then 0 else Total(rows[..|rows| - 1]) + rows[|rows| - 1].count
  }

  /** The chunk rows of a handle are numbered 0, 1, ... and each names a nonempty file of its size. */
  ghost predicate RowsOk(h: string, rows: seq<ChunkRow>, files: map<string, seq<string>>)
  {
    |rows| <= LIMIT &&
    forall i | 0 <= i < |rows| ::
      rows[i].number == i && rows[i].path == ChunkPath(h, i) && rows[i].path in files &&
      |files[rows[i].path]| == rows[i].count > 0
  }

  ghost predicate DiskOk(d: Disk)
  {
    d.chunks.Keys <= d.shapes.Keys &&
    (forall h | h in d.chunks :: d.chunks[h] != []) &&
    (forall a, b | a in d.shapes && b in d.shapes && SanitizePath(a) == SanitizePath(b) :: a == b) &&
    forall h | h in d.shapes ::
      RowsOk(h, d.Rows(h), d.files) && d.shapes[h].changeCount == Total(d.Rows(h)) &&
      (d.shapes[h].deleted ==> d.Rows(h) == [])
  }

  // ---- loading gives the chunks in append order ----

  lemma SortedPaths(h: string, rows: seq<ChunkRow>)
    requires forall i | 0 <= i < |rows| :: rows[i].path == ChunkPath(h, i)
    ensures Sorted(PathSet(rows)) == PathsOf(rows) <==> |rows| <= LIMIT
  {
    hide Less, ChunkPath;
    var paths := PathsOf(rows);
    if |rows| <= LIMIT {
      forall i, j | 0 <= i < j < |paths| ensures Less(paths[i], paths[j]) { PathOrder(h, i, j); }
      SortedUnique(paths, PathSet(rows));
    } else {
      PathOrderBreaks(h);
      LessTotal(paths[LIMIT - 1], paths[LIMIT]);
      assert !Ascending(paths);
    }
  }

  lemma {:induction false} ReadRows(h: string, rows: seq<ChunkRow>, files: map<string, seq<string>>)
    requires RowsOk(h, rows, files)
    ensures ReadAll(files, PathsOf(rows)).Some? && |ReadAll(files, PathsOf(rows)).value| == Total(rows)
  {
    hide ChunkPath;
    if rows != [] {
      var n := |rows| - 1;
      assert PathsOf(rows)[..n] == PathsOf(rows[..n]);
      ReadRows(h, rows[..n], files);
    }
  }

  /** The change log of a handle: its chunks in append order. */
  ghost function Log(d: Disk, h: string): seq<string>
  {
    match ReadAll(d.files, PathsOf(d.Rows(h))) case Some(log) => log case None => []
  }

  /** What a load returns: the log in append order, as long as its count of entries. */
  lemma LoadIsLog(d: Disk, h: string)
    requires DiskOk(d) && h in d.shapes
    ensures LoadChanges(d, h) == Some(Log(d, h))
    ensures |Log(d, h)| == Total(d.Rows(h)) == d.shapes[h].changeCount
  {
    SortedPaths(h, d.Rows(h));
    ReadRows(h, d.Rows(h), d.files);
  }

  ghost function ShapeOf(d: Disk, h: string): Persisted
    requires h in d.shapes
  {
    Persisted(d.shapes[h].fields, d.shapes[h].deleted, Log(d, h))
  }

  ghost function View(d: Disk): map<string, Persisted>
  {
    map h | h in d.shapes :: ShapeOf(d, h)
  }

  // ---- frame: files of other handles do not matter ----

  lemma {:induction false} ReadFrame(f: map<string, seq<string>>, g: map<string, seq<string>>, paths: seq<string>)
    requires forall p | p in paths :: (p in f <==> p in g) && (p in f ==> f[p] == g[p])
    ensures ReadAll(f, paths) == ReadAll(g, paths)
  {
    if paths != [] {
      var n := |paths| - 1;
      assert paths[n] in paths;
      ReadFrame(f, g, paths[..n]);
    }
  }

  /** `g` has the same files as `f` for every chunk of handle `h`. */
  ghost predicate SameFilesFor(f: map<string, seq<string>>, g: map<string, seq<string>>, h: string)
  {
    forall i: nat :: var p := ChunkPath(h, i); (p in f <==> p in g) && (p in f ==> f[p] == g[p])
  }

  lemma RowsFrame(h: string, rows: seq<ChunkRow>, f: map<string, seq<string>>, g: map<string, seq<string>>)
    requires RowsOk(h, rows, f) && SameFilesFor(f, g, h)
    ensures RowsOk(h, rows, g) && ReadAll(f, PathsOf(rows)) == ReadAll(g, PathsOf(rows))
  {
    hide ChunkPath;
    forall i | 0 <= i < |rows| ensures rows[i].path in g && g[rows[i].path] == f[rows[i].path] {
      assert rows[i].path == ChunkPath(h, i);
    }
    ReadFrame(f, g, PathsOf(rows));
  }

  // ---- saving ----

  /** What a save leaves as the change log: nothing for a tombstone, the given log when it is shorter
      than the stored one, and otherwise the stored log extended by what lies beyond its length. */
  function MergedLog(stored: seq<string>, shape: Persisted): seq<string>
  {
    if shape.deleted then []
    else if |shape.changes| < |stored| then shape.changes
    else stored + shape.changes[|stored|..]
  }

  /** The save is kept as given exactly when it is a tombstone without log, or is shorter than the
      stored log, or extends it. */
  lemma SaveKeptIff(stored: seq<string>, shape: Persisted)
    ensures MergedLog(stored, shape) == shape.changes <==>
      if shape.deleted then shape.changes == []
      else |shape.changes| < |stored| || stored <= shape.changes
  {
    if !shape.deleted && |shape.changes| >= |stored| {
      assert MergedLog(stored, shape)[..|stored|] == stored;
      if stored <= shape.changes {
        assert stored + shape.changes[|stored|..] == shape.changes;
      }
    }
  }

  function StoredLog(d: Disk, h: string): nat
  {
    if h in d.shapes then d.shapes[h].changeCount else 0
  }

  predicate Resets(d: Disk, h: string, shape: Persisted)
  {
    shape.deleted || |shape.changes| < StoredLog(d, h)
  }

  /** The chunk rows that a save keeps. */
  function KeptRows(d: Disk, h: string, shape: Persisted): seq<ChunkRow>
  {
    if Resets(d, h, shape) then [] else d.Rows(h)
  }

  function KeptFiles(d: Disk, h: string, shape: Persisted): map<string, seq<string>>
  {
    if Resets(d, h, shape) then d.files - PathSet(d.Rows(h)) else d.files
  }

  /** The changes that a save still has to write. */
  function NewChanges(d: Disk, h: string, shape: Persisted): seq<string>
  {
    if shape.deleted then []
    else if Resets(d, h, shape) then shape.changes
    else shape.changes[StoredLog(d, h)..]
  }

  /** The disk after a committed save. */
  function SavedDisk(d: Disk, h: string, shape: Persisted): Disk
  {
    var rows, files, fresh_ := KeptRows(d, h, shape), KeptFiles(d, h, shape), NewChanges(d, h, shape);
    var path := ChunkPath(h, |rows|);
    var count := if shape.deleted then 0 else |shape.changes|;
    Disk(d.shapes[h := ShapeRow(shape.fields, shape.deleted, count)],
         if fresh_ == [] then (if rows == [] then d.chunks - {h} else d.chunks)
         else d.chunks[h := rows + [ChunkRow(|rows|, path, |fresh_|)]],
         if fresh_ == [] then files else files[path := fresh_])
  }

  /** The handle's directory is its own. */
  ghost predicate OwnDirectory(d: Disk, h: string)
  {
    forall a | a in d.shapes && SanitizePath(a) == SanitizePath(h) :: a == h
  }

  ghost predicate RoomFor(d: Disk, h: string, shape: Persisted)
  {
    NewChanges(d, h, shape) != [] ==> |KeptRows(d, h, shape)| < LIMIT
  }

  lemma OtherFilesKept(d: Disk, h: string, shape: Persisted, a: string)
    requires DiskOk(d) && SanitizePath(a) != SanitizePath(h)
    ensures SameFilesFor(d.files, SavedDisk(d, h, shape).files, a)
  {
    hide SanitizePath;
    var g := SavedDisk(d, h, shape).files;
    forall i: nat ensures var p := ChunkPath(a, i); (p in d.files <==> p in g) && (p in d.files ==> d.files[p] == g[p]) {
      PathsApart(a, i, h, |KeptRows(d, h, shape)|);
      forall q | q in PathsOf(d.Rows(h)) ensures q != ChunkPath(a, i) {
        var j :| 0 <= j < |d.Rows(h)| && d.Rows(h)[j].path == q;
        RowPath(d, h, j);
        PathsApart(a, i, h, j);
      }
    }
  }

  lemma RowPath(d: Disk, h: string, j: nat)
    requires DiskOk(d) && j < |d.Rows(h)|
    ensures d.Rows(h)[j].path == ChunkPath(h, j)
  {
    hide ChunkPath, SanitizePath;
    assert h in d.shapes;
    assert RowsOk(h, d.Rows(h), d.files);
  }

  /** Adding one chunk after the others extends the log by its content. */
  lemma AppendChunk(h: string, rows: seq<ChunkRow>, files: map<string, seq<string>>, fresh_: seq<string>)
    requires RowsOk(h, rows, files) && |rows| < LIMIT && fresh_ != []
    ensures var path := ChunkPath(h, |rows|);
      var rows' := rows + [ChunkRow(|rows|, path, |fresh_|)];
      var files' := files[path := fresh_];
      RowsOk(h, rows', files') && Total(rows') == Total(rows) + |fresh_| &&
      ReadAll(files, PathsOf(rows)).Some? &&
      ReadAll(files', PathsOf(rows')) == Some(ReadAll(files, PathsOf(rows)).value + fresh_)
  {
    hide ChunkPath, Less;
    var path := ChunkPath(h, |rows|);
    var rows' := rows + [ChunkRow(|rows|, path, |fresh_|)];
    var files' := files[path := fresh_];
    forall i | 0 <= i < |rows| ensures rows[i].path != path {
      PathOrder(h, i, |rows|);
      LessIrreflexive(path);
    }
    assert rows'[..|rows|] == rows;
    assert PathsOf(rows')[..|rows|] == PathsOf(rows);
    ReadFrame(files, files', PathsOf(rows));
    ReadRows(h, rows, files);
  }

  /** The rows and the log of the saved handle. */
  lemma SavedRows(d: Disk, h: string, shape: Persisted)
    requires DiskOk(d) && RoomFor(d, h, shape)
    ensures var t := SavedDisk(d, h, shape);
      var stored := if h in d.shapes then Log(d, h) else [];
      RowsOk(h, t.Rows(h), t.files) && Total(t.Rows(h)) == t.shapes[h].changeCount &&
      (shape.deleted ==> t.Rows(h) == []) && Log(t, h) == MergedLog(stored, shape)
  {
    hide ChunkPath, SanitizePath, RowsOk, ReadAll, Total, PathsOf, SavedDisk, KeptRows, KeptFiles, DiskOk;
    var rows, files, fresh_ := KeptRows(d, h, shape), KeptFiles(d, h, shape), NewChanges(d, h, shape);
    KeptOk(d, h, shape);
    SavedHandle(d, h, shape);
    if fresh_ != [] { AppendChunk(h, rows, files, fresh_); }
    if !Resets(d, h, shape) {
      var stored := if h in d.shapes then Log(d, h) else [];
      assert !shape.deleted && fresh_ == shape.changes[|stored|..];
    }
  }

  lemma SavedHandle(d: Disk, h: string, shape: Persisted)
    ensures var t, rows, fresh_ := SavedDisk(d, h, shape), KeptRows(d, h, shape), NewChanges(d, h, shape);
      var path := ChunkPath(h, |rows|);
      t.Rows(h) == (if fresh_ == [] then rows else rows + [ChunkRow(|rows|, path, |fresh_|)]) &&
      t.files == (if fresh_ == [] then KeptFiles(d, h, shape) else KeptFiles(d, h, shape)[path := fresh_]) &&
      t.shapes == d.shapes[h := ShapeRow(shape.fields, shape.deleted, if shape.deleted then 0 else |shape.changes|)] &&
      (shape.deleted ==> rows == [] && fresh_ == [])
  {
    hide ChunkPath, SanitizePath;
  }

  lemma KeptOk(d: Disk, h: string, shape: Persisted)
    requires DiskOk(d)
    ensures var rows, files := KeptRows(d, h, shape), KeptFiles(d, h, shape);
      var stored := if h in d.shapes then Log(d, h) else [];
      RowsOk(h, rows, files) && ReadAll(files, PathsOf(rows)).Some? &&
      Total(rows) == (if Resets(d, h, shape) then 0 else |stored|) &&
      ReadAll(files, PathsOf(rows)).value == (if Resets(d, h, shape) then [] else stored) &&
      |stored| == StoredLog(d, h)
  {
    hide ChunkPath, SanitizePath;
    if h in d.shapes {
      LoadIsLog(d, h);
      ReadRows(h, d.Rows(h), d.files);
    } else {
      assert d.Rows(h) == [];
    }
  }

  lemma SavedTables(d: Disk, h: string, shape: Persisted)
    requires DiskOk(d)
    ensures var t := SavedDisk(d, h, shape);
      t.chunks.Keys <= t.shapes.Keys && (forall a | a in t.chunks :: t.chunks[a] != []) &&
      (forall a | a != h :: t.Rows(a) == d.Rows(a)) &&
      t.shapes == d.shapes[h := ShapeRow(shape.fields, shape.deleted, if shape.deleted then 0 else |shape.changes|)]
  {
    hide ChunkPath, SanitizePath, RowsOk, Total, KeptFiles;
  }

  lemma SavedOther(d: Disk, h: string, shape: Persisted, a: string)
    requires DiskOk(d) && OwnDirectory(d, h) && a in d.shapes && a != h
    ensures var t := SavedDisk(d, h, shape);
      t.Rows(a) == d.Rows(a) && t.shapes[a] == d.shapes[a] && RowsOk(a, t.Rows(a), t.files) && Log(t, a) == Log(d, a)
  {
    hide ChunkPath, SanitizePath, RowsOk, ReadAll, SavedDisk;
    SavedTables(d, h, shape);
    OtherFilesKept(d, h, shape, a);
    RowsFrame(a, d.Rows(a), d.files, SavedDisk(d, h, shape).files);
  }

  lemma SavedOk(d: Disk, h: string, shape: Persisted)
    requires DiskOk(d) && OwnDirectory(d, h) && RoomFor(d, h, shape)
    ensures DiskOk(SavedDisk(d, h, shape))
  {
    hide ChunkPath, SanitizePath, RowsOk, Total, MergedLog, SavedDisk, Log, NewChanges, KeptRows, ReadAll;
    var t := SavedDisk(d, h, shape);
    SavedRows(d, h, shape);
    SavedTables(d, h, shape);
    forall a | a in t.shapes
      ensures RowsOk(a, t.Rows(a), t.files) && t.shapes[a].changeCount == Total(t.Rows(a)) &&
              (t.shapes[a].deleted ==> t.Rows(a) == [])
    {
      if a != h { SavedOther(d, h, shape, a); }
    }
  }

  lemma SavedView(d: Disk, h: string, shape: Persisted)
    requires DiskOk(d) && OwnDirectory(d, h) && RoomFor(d, h, shape)
    ensures var stored := if h in d.shapes then Log(d, h) else [];
      View(SavedDisk(d, h, shape)) == View(d)[h := Persisted(shape.fields, shape.deleted, MergedLog(stored, shape))]
  {
    hide ChunkPath, SanitizePath, RowsOk, Total, MergedLog, SavedDisk, Log, DiskOk, OwnDirectory, RoomFor;
    var t := SavedDisk(d, h, shape);
    SavedRows(d, h, shape);
    SavedTables(d, h, shape);
    forall a | a in d.shapes && a != h ensures ShapeOf(t, a) == ShapeOf(d, a) {
      SavedOther(d, h, shape, a);
    }
  }

  /** Disk refines memory, one save: afterwards every handle loads what it did, except the saved one,
      which loads its new fields with the merged log. */
  lemma SaveRefines(d: Disk, h: string, shape: Persisted)
    requires DiskOk(d) && OwnDirectory(d, h) && RoomFor(d, h, shape)
    ensures DiskOk(SavedDisk(d, h, shape))
    ensures var stored := if h in d.shapes then Log(d, h) else [];
      View(SavedDisk(d, h, shape)) == View(d)[h := Persisted(shape.fields, shape.deleted, MergedLog(stored, shape))]
  {
    hide DiskOk, OwnDirectory, RoomFor, SavedDisk, View, Log, MergedLog;
    SavedOk(d, h, shape);
    SavedView(d, h, shape);
  }

  // ---- whole histories of saves ----

  datatype Save = Save(handle: string, shape: Persisted)

  function MemoryAfter(saves: seq<Save>): map<string, Persisted>
  {
    if saves == [] then map[] else
      MemoryAfter(saves[..|saves| - 1])[saves[|saves| - 1].handle := saves[|saves| - 1].shape]
  }

  const EMPTY_DISK := Disk(map[], map[], map[])

  function DiskAfter(saves: seq<Save>): Disk
  {
    if saves == [] then EMPTY_DISK else
      SavedDisk(DiskAfter(saves[..|saves| - 1]), saves[|saves| - 1].handle, saves[|saves| - 1].shape)
  }

  /** The log that the stores agree on for a handle. */
  function KnownLog(shapes: map<string, Persisted>, h: string): seq<string>
  {
    if h in shapes then WithoutDeadLog(shapes[h]).changes else []
  }

  /** Every save is a tombstone, or extends the last live log of its handle, or is shorter; handles
      have their own directories and stay under the chunk limit. */
  ghost predicate ProperSaves(saves: seq<Save>)
  {
    saves == [] ||
    var n := |saves| - 1;
    var s, d := saves[n], DiskAfter(saves[..n]);
    var known := KnownLog(MemoryAfter(saves[..n]), s.handle);
    ProperSaves(saves[..n]) && OwnDirectory(d, s.handle) && RoomFor(d, s.handle, s.shape) &&
    (s.shape.deleted || |s.shape.changes| < |known| || known <= s.shape.changes)
  }

  /** One save takes agreeing stores to agreeing stores. */
  lemma SaveKeepsAgreement(d: Disk, mem: map<string, Persisted>, h: string, shape: Persisted)
    requires DiskOk(d) && OwnDirectory(d, h) && RoomFor(d, h, shape) && View(d) == Compacted(mem)
    requires shape.deleted || |shape.changes| < |KnownLog(mem, h)| || KnownLog(mem, h) <= shape.changes
    ensures DiskOk(SavedDisk(d, h, shape)) && View(SavedDisk(d, h, shape)) == Compacted(mem[h := shape])
  {
    hide DiskOk, SavedDisk, OwnDirectory, RoomFor, Log, MergedLog;
    SaveRefines(d, h, shape);
    var stored := if h in d.shapes then Log(d, h) else [];
    assert stored == KnownLog(mem, h) by {
      assert h in View(d) <==> h in Compacted(mem);
      assert h in View(d) ==> View(d)[h].changes == Log(d, h);
    }
    MergeOfProper(stored, shape);
    assert Compacted(mem[h := shape]) == Compacted(mem)[h := WithoutDeadLog(shape)];
  }

  lemma {:induction false} SavesKeepAgreement(saves: seq<Save>)
    requires ProperSaves(saves)
    ensures DiskOk(DiskAfter(saves)) && View(DiskAfter(saves)) == Compacted(MemoryAfter(saves))
  {
    hide DiskOk, SavedDisk, OwnDirectory, RoomFor, View, Compacted, KnownLog;
    if saves == [] {
      EmptyDiskOk();
    } else {
      var n := |saves| - 1;
      SavesKeepAgreement(saves[..n]);
      SaveKeepsAgreement(DiskAfter(saves[..n]), MemoryAfter(saves[..n]), saves[n].handle, saves[n].shape);
    }
  }

  /** Disk store refines memory store over every history of proper saves: loading from disk gives,
      for every handle, the last saved shape with its log in append order; only the logs of
      tombstones are gone. */
  lemma DiskRefinesMemory(saves: seq<Save>)
    requires ProperSaves(saves)
    ensures View(DiskAfter(saves)) == Compacted(MemoryAfter(saves))
    ensures forall h | h in DiskAfter(saves).shapes ::
              h in Compacted(MemoryAfter(saves)) &&
              LoadChanges(DiskAfter(saves), h) == Some(Compacted(MemoryAfter(saves))[h].changes)
  {
    hide DiskOk, SavedDisk, LoadChanges, Log, DiskAfter, MemoryAfter, ProperSaves, Compacted;
    SavesKeepAgreement(saves);
    var d := DiskAfter(saves);
    forall h | h in d.shapes ensures h in View(d) && LoadChanges(d, h) == Some(View(d)[h].changes) {
      LoadIsLog(d, h);
    }
  }

  lemma MergeOfProper(stored: seq<string>, shape: Persisted)
    requires shape.deleted || |shape.changes| < |stored| || stored <= shape.changes
    ensures Persisted(shape.fields, shape.deleted, MergedLog(stored, shape)) == WithoutDeadLog(shape)
  {
    SaveKeptIff(stored, shape);
  }

  lemma EmptyDiskOk()
    ensures DiskOk(EMPTY_DISK) && View(EMPTY_DISK) == map[] == Compacted(map[])
  {
  }

  // ---- an interrupted save ----

  /** Tables as before the save (its transaction never committed), files as after removing the first
      `removed` chunk files and, when `wrote`, writing the new chunk. */
  function Torn(d: Disk, h: string, shape: Persisted, removed: nat, wrote: bool): Disk
    requires removed <= |d.Rows(h)|
  {
    var gone := set p | p in PathsOf(d.Rows(h))[..removed];
    var left := d.files - gone;
    d.(files := if wrote then left[ChunkPath(h, |KeptRows(d, h, shape)|) := NewChanges(d, h, shape)] else left)
  }

  /** Which interruptions there are: files go only in a reset, the chunk is written last and only if
      there is something to write. */
  predicate CanTear(d: Disk, h: string, shape: Persisted, removed: nat, wrote: bool)
  {
    removed <= |d.Rows(h)| &&
    (removed > 0 ==> Resets(d, h, shape)) &&
    (wrote ==> NewChanges(d, h, shape) != [] && (Resets(d, h, shape) ==> removed == |d.Rows(h)|))
  }

  lemma {:induction false} MissingFileFails(files: map<string, seq<string>>, paths: seq<string>, p: string)
    requires p in paths && p !in files
    ensures ReadAll(files, paths) == None
  {
    var n := |paths| - 1;
    if paths[n] != p {
      assert p in paths[..n];
      MissingFileFails(files, paths[..n], p);
    }
  }

  /** An interruption after which the handle loads its old log or fails to load; the manager turns a
      failed load into a tombstone. */
  ghost predicate SafeTear(d: Disk, h: string, shape: Persisted, removed: nat, wrote: bool)
    requires CanTear(d, h, shape, removed, wrote)
  {
    LoadChanges(Torn(d, h, shape, removed, wrote), h) in {None, LoadChanges(d, h)}
  }

  /** The save replaces the only chunk of the handle by a new one. */
  predicate ReplacesOneChunk(d: Disk, h: string, shape: Persisted)
  {
    Resets(d, h, shape) && NewChanges(d, h, shape) != [] && |d.Rows(h)| == 1
  }

  /** A save can be interrupted at any point exactly when it does not replace the only chunk of its
      handle: a reset without a write and an append leave the old log, and a reset of several chunks
      leaves a gap that fails to load. */
  lemma InterruptedSaveIff(d: Disk, h: string, shape: Persisted)
    requires DiskOk(d) && RoomFor(d, h, shape)
    ensures (forall removed: nat, wrote: bool | CanTear(d, h, shape, removed, wrote) :: SafeTear(d, h, shape, removed, wrote))
            <==> !ReplacesOneChunk(d, h, shape)
  {
    hide SafeTear, CanTear, DiskOk, RoomFor, ReplacesOneChunk;
    if ReplacesOneChunk(d, h, shape) {
      TornResetUnsafe(d, h, shape);
    } else {
      forall removed: nat, wrote: bool | CanTear(d, h, shape, removed, wrote) ensures SafeTear(d, h, shape, removed, wrote) {
        TornSafely(d, h, shape, removed, wrote);
      }
    }
  }

  lemma TornResetUnsafe(d: Disk, h: string, shape: Persisted)
    requires DiskOk(d) && ReplacesOneChunk(d, h, shape)
    ensures CanTear(d, h, shape, 1, true) && !SafeTear(d, h, shape, 1, true)
  {
    assert h in d.chunks && h in d.shapes;
    TornResetMixes(d, h, shape);
    LoadIsLog(d, h);
    hide LoadChanges, DiskOk, Torn;
    assert |NewChanges(d, h, shape)| < |Log(d, h)|;
  }

  lemma TornSafely(d: Disk, h: string, shape: Persisted, removed: nat, wrote: bool)
    requires DiskOk(d) && RoomFor(d, h, shape) && CanTear(d, h, shape, removed, wrote) && !ReplacesOneChunk(d, h, shape)
    ensures SafeTear(d, h, shape, removed, wrote)
  {
    if removed > 0 {
      if wrote {
        TornManyChunks(d, h, shape);
      } else {
        TornReset(d, h, shape, removed);
      }
    } else {
      NothingToReset(d, h, shape);
      TornAppend(d, h, shape, wrote);
    }
    hide LoadChanges, Torn;
  }

  /** A reset that writes has chunks to remove first. */
  lemma NothingToReset(d: Disk, h: string, shape: Persisted)
    requires DiskOk(d)
    ensures Resets(d, h, shape) && NewChanges(d, h, shape) != [] ==> d.Rows(h) != []
  {
    assert Total([]) == 0;
  }

  /** The written chunk takes the place of the first one; the second is missing. */
  lemma TornManyChunks(d: Disk, h: string, shape: Persisted)
    requires DiskOk(d) && CanTear(d, h, shape, |d.Rows(h)|, true) && |d.Rows(h)| > 1 && Resets(d, h, shape)
    ensures LoadChanges(Torn(d, h, shape, |d.Rows(h)|, true), h) == None
  {
    var rows := d.Rows(h);
    assert h in d.shapes && RowsOk(h, rows, d.files);
    PathOrder(h, 0, 1);
    LessIrreflexive(ChunkPath(h, 0));
    hide ChunkPath, SanitizePath, Less, Sorted, DiskOk;
    var t := Torn(d, h, shape, |rows|, true);
    assert PathsOf(rows)[1] == rows[1].path == ChunkPath(h, 1);
    assert PathsOf(rows)[..|rows|] == PathsOf(rows);
    assert rows[1].path in PathsOf(rows);
    assert rows[1].path !in t.files;
    MissingFileFails(t.files, Sorted(PathSet(rows)), rows[1].path);
  }

  lemma TornReset(d: Disk, h: string, shape: Persisted, removed: nat)
    requires 0 < removed <= |d.Rows(h)|
    ensures LoadChanges(Torn(d, h, shape, removed, false), h) == None
  {
    hide ChunkPath, SanitizePath, Less, Sorted;
    var t := Torn(d, h, shape, removed, false);
    var rows := d.Rows(h);
    assert PathsOf(rows)[..removed][0] == PathsOf(rows)[0];
    assert rows[0].path in PathsOf(rows);
    MissingFileFails(t.files, Sorted(PathSet(rows)), rows[0].path);
  }

  lemma TornAppend(d: Disk, h: string, shape: Persisted, wrote: bool)
    requires DiskOk(d) && RoomFor(d, h, shape) && CanTear(d, h, shape, 0, wrote) && (wrote ==> !Resets(d, h, shape))
    ensures LoadChanges(Torn(d, h, shape, 0, wrote), h) == LoadChanges(d, h)
  {
    hide ChunkPath, SanitizePath, Less, Sorted;
    var t := Torn(d, h, shape, 0, wrote);
    var rows := d.Rows(h);
    assert h in d.shapes || rows == [];
    forall p | p in Sorted(PathSet(rows)) ensures (p in d.files <==> p in t.files) && (p in d.files ==> d.files[p] == t.files[p]) {
      var i :| 0 <= i < |rows| && rows[i].path == p;
      if wrote {
        PathOrder(h, i, |rows|);
        LessIrreflexive(p);
      }
    }
    hide ReadAll, NewChanges, Resets;
    ReadFrame(d.files, t.files, Sorted(PathSet(rows)));
  }

  /** A reset that writes over the only chunk can be torn into a mixture: the old row with the new log. */
  lemma TornResetMixes(d: Disk, h: string, shape: Persisted)
    requires DiskOk(d) && h in d.shapes && |d.Rows(h)| == 1
    requires Resets(d, h, shape) && NewChanges(d, h, shape) != []
    ensures CanTear(d, h, shape, 1, true)
    ensures LoadChanges(Torn(d, h, shape, 1, true), h) == Some(NewChanges(d, h, shape))
  {
    hide ChunkPath, SanitizePath;
    var t, row := Torn(d, h, shape, 1, true), d.Rows(h)[0];
    assert RowsOk(h, d.Rows(h), d.files);
    SortedPaths(h, d.Rows(h));
    assert PathsOf(d.Rows(h)) == [row.path];
    assert [row.path][..0] == [];
    assert ReadAll(t.files, []) == Some([]);
    assert row.path == ChunkPath(h, 0) && KeptRows(d, h, shape) == [];
    assert t.files[row.path] == NewChanges(d, h, shape);
    assert [] + NewChanges(d, h, shape) == NewChanges(d, h, shape);
    assert ReadAll(t.files, [row.path]) == Some(NewChanges(d, h, shape));
  }

  // ---- the store ----

  class Store {
    var shapes: map<string, ShapeRow>
    var chunks: map<string, seq<ChunkRow>>
    var files: map<string, seq<string>>

    ghost function Value(): Disk
      reads this
    {
      Disk(shapes, chunks, files)
    }

    constructor ()
      ensures Value() == EMPTY_DISK
    {
      shapes, chunks, files := map[], map[], map[];
    }

    /** loadChunkMetadata: the stored count, the next chunk number and the paths. */
    method LoadChunkMetadata(handle: string) returns (count: nat, next: nat, paths: seq<string>)
      requires DiskOk(Value())
      ensures count == StoredLog(Value(), handle) && next == |Value().Rows(handle)| && paths == PathsOf(Value().Rows(handle))
    {
      hide ChunkPath, SanitizePath, Total;
      count := if handle in shapes then shapes[handle].changeCount else 0;
      var rows := if handle in chunks then chunks[handle] else [];
      assert handle in shapes || rows == [];
      assert handle in shapes ==> RowsOk(handle, rows, files);
      next, paths := 0, [];
      for i := 0 to |rows|
        invariant next == i && paths == PathsOf(rows[..i])
      {
        paths := paths + [rows[i].path];
        if rows[i].number >= next {
          next := rows[i].number + 1;
        }
      }
      assert rows[..|rows|] == rows;
    }

    /** removeChunks: a file that is already gone is no error. */
    method RemoveChunks(paths: seq<string>)
      modifies this`files
      ensures files == old(files) - (set p | p in paths)
    {
      for i := 0 to |paths|
        invariant files == old(files) - (set p | p in paths[..i])
      {
        assert paths[..i + 1] == paths[..i] + [paths[i]];
        files := files - {paths[i]};
      }
      assert paths[..|paths|] == paths;
    }

    /** Forgets every chunk of a handle: its files, then its rows. */
    method ResetChunks(handle: string, paths: seq<string>)
      modifies this`files, this`chunks
      ensures files == old(files) - (set p | p in paths) && chunks == old(chunks) - {handle}
    {
      RemoveChunks(paths);
      chunks := chunks - {handle};
    }

    /** Writes one chunk file and its row. */
    method WriteChunk(handle: string, next: nat, content: seq<string>)
      modifies this`files, this`chunks
      ensures files == old(files)[ChunkPath(handle, next) := content]
      ensures chunks == old(chunks)[handle := old(Value()).Rows(handle) + [ChunkRow(next, ChunkPath(handle, next), |content|)]]
    {
      var path := ChunkPath(handle, next);
      files := files[path := content];
      var rows := if handle in chunks then chunks[handle] else [];
      chunks := chunks[handle := rows + [ChunkRow(next, path, |content|)]];
    }

    method SaveShape(handle: string, shape: Persisted)
      requires DiskOk(Value()) && OwnDirectory(Value(), handle) && RoomFor(Value(), handle, shape)
      modifies this
      ensures Value() == SavedDisk(old(Value()), handle, shape)
      ensures DiskOk(Value())
    {
      hide ChunkPath, SanitizePath, DiskOk, OwnDirectory, SavedDisk;
      ghost var d := Value();
      SaveRefines(d, handle, shape);
      SavedParts(d, handle, shape);
      var count, next, paths := LoadChunkMetadata(handle);
      var changes := shape.changes;
      if shape.deleted {
        ResetChunks(handle, paths);
        count, next, changes := 0, 0, [];
      }
      if |changes| < count {
        ResetChunks(handle, paths);
        count, next := 0, 0;
      }
      assert files == KeptFiles(d, handle, shape) && Value().Rows(handle) == KeptRows(d, handle, shape);
      assert next == |KeptRows(d, handle, shape)| && changes[count..] == NewChanges(d, handle, shape);
      shapes := shapes[handle := ShapeRow(shape.fields, shape.deleted, |changes|)];
      if |changes| > count {
        WriteChunk(handle, next, changes[count..]);
      }
    }

    /** loadShapeChanges: the sorted paths, read one after the other. */
    method LoadShapeChanges(handle: string) returns (r: Option<seq<string>>)
      ensures r == LoadChanges(Value(), handle)
    {
      hide Sorted, Less;
      var rows := if handle in chunks then chunks[handle] else [];
      var paths := Sorted(PathSet(rows));
      var changes := [];
      for i := 0 to |paths|
        invariant ReadAll(files, paths[..i]) == Some(changes)
      {
        assert paths[..i + 1][..i] == paths[..i];
        if paths[i] !in files {
          assert paths[i] in paths;
          MissingFileFails(files, paths, paths[i]);
          return None;
        }
        changes := changes + files[paths[i]];
      }
      assert paths[..|paths|] == paths;
      r := Some(changes);
    }

    /** removeUnreferencedChunkFiles. */
    method RemoveUnreferenced(live: set<string>) returns (removed: nat)
      modifies this`files
      ensures files == map p | p in old(files) && p in live :: old(files)[p]
    {
      removed := 0;
      var todo := files.Keys;
      while todo != {}
        invariant todo <= old(files).Keys && files.Keys <= old(files).Keys
        invariant forall p | p in old(files) :: p in files <==> p in todo || p in live
        invariant forall p | p in files :: files[p] == old(files)[p]
        decreases |todo|
      {
        var p :| p in todo;
        todo := todo - {p};
        if p !in live {
          files := files - {p};
          removed := removed + 1;
        }
      }
    }

    /** Compact: drops the chunk rows of unknown and deleted handles, then every file that no row
        names. No handle loads anything different afterwards. */
    method Compact() returns (removed: nat)
      requires DiskOk(Value())
      modifies this
      ensures DiskOk(Value()) && View(Value()) == View(old(Value()))
      ensures shapes == old(shapes) && chunks == old(chunks)
      ensures files == map p | p in old(files) && p in LivePaths(old(Value())) :: old(files)[p]
    {
      hide DiskOk, View;
      ghost var d := Value();
      CompactTables(d);
      chunks := map h | h in chunks && h in shapes && !shapes[h].deleted :: chunks[h];
      shapes := map h | h in shapes :: if shapes[h].deleted then shapes[h].(changeCount := 0) else shapes[h];
      var live := set h, i | h in chunks && 0 <= i < |chunks[h]| :: chunks[h][i].path;
      removed := RemoveUnreferenced(live);
      CompactKeeps(d, files);
    }
  }

  /** liveChunkPaths: the paths that some chunk row names. */
  function LivePaths(d: Disk): set<string>
  {
    set h, i | h in d.chunks && 0 <= i < |d.chunks[h]| :: d.chunks[h][i].path
  }

  /** The three parts of a saved disk, as the steps of a save produce them. */
  lemma SavedParts(d: Disk, h: string, shape: Persisted)
    requires DiskOk(d)
    ensures var t, rows, fresh_ := SavedDisk(d, h, shape), KeptRows(d, h, shape), NewChanges(d, h, shape);
      var path := ChunkPath(h, |rows|);
      t.shapes == d.shapes[h := ShapeRow(shape.fields, shape.deleted, if shape.deleted then 0 else |shape.changes|)] &&
      t.files == (if fresh_ == [] then KeptFiles(d, h, shape) else KeptFiles(d, h, shape)[path := fresh_]) &&
      t.chunks == (if fresh_ != [] then d.chunks[h := rows + [ChunkRow(|rows|, path, |fresh_|)]]
                   else if Resets(d, h, shape) then d.chunks - {h} else d.chunks)
  {
    hide ChunkPath, SanitizePath, RowsOk, Total;
  }

  /** In a sound disk the table part of a compaction has nothing to do. */
  lemma CompactTables(d: Disk)
    requires DiskOk(d)
    ensures (map h | h in d.chunks && h in d.shapes && !d.shapes[h].deleted :: d.chunks[h]) == d.chunks
    ensures (map h | h in d.shapes :: if d.shapes[h].deleted then d.shapes[h].(changeCount := 0) else d.shapes[h]) == d.shapes
  {
    hide ChunkPath, SanitizePath, RowsOk;
    forall h | h in d.shapes && d.shapes[h].deleted ensures h !in d.chunks && d.shapes[h].changeCount == 0 {
      assert d.Rows(h) == [];
    }
  }

  lemma CompactKeeps(d: Disk, files: map<string, seq<string>>)
    requires DiskOk(d)
    requires forall p | p in files :: p in d.files && files[p] == d.files[p]
    requires forall p | p in d.files && p in LivePaths(d) :: p in files
    ensures DiskOk(d.(files := files)) && View(d.(files := files)) == View(d)
  {
    hide ChunkPath, SanitizePath, Total;
    var t := d.(files := files);
    forall h | h in d.shapes ensures RowsOk(h, t.Rows(h), files) && Log(t, h) == Log(d, h) {
      var rows := d.Rows(h);
      assert RowsOk(h, rows, d.files);
      forall i | 0 <= i < |rows| ensures rows[i].path in files {
        assert d.chunks[h][i].path in LivePaths(d);
      }
      ReadFrame(d.files, files, PathsOf(rows));
    }
  }
}
