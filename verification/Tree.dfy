/** Directory trees, the files a payload puts into one, and the check of an existing one. */
module Tree {
  import opened Wrappers
  import opened Strings
  import opened Fingerprint
  import opened Payload

  datatype Node = Dir | File(mode: int, data: Bytes) | Other

  /** The entries below a directory, by slash-separated path. */
  type Tree = map<Bytes, Node>

  // ---------------------------------------------------------------- payloadFileMode

  function Bit(mode: int, weight: int): int
    requires weight > 0
  {
    mode / weight % 2 * weight
  }

  function PayloadFileMode(mode: int): int {
    Bit(mode, 256) + Bit(mode, 128) + Bit(mode, 64) + Bit(mode, 32) + Bit(mode, 16) + Bit(mode, 8) + Bit(mode, 4)
    + Bit(mode, 2) + Bit(mode, 1)
  }

  /** Copying the nine permission bits one by one keeps exactly the permission bits. */
  lemma PayloadFileModeKeepsPermissions(mode: int)
    ensures PayloadFileMode(mode) == mode % 512
  {
    HighBits(mode);
    MiddleBits(mode);
    LowBits(mode);
  }

  lemma HighBits(mode: int)
    ensures mode % 512 == Bit(mode, 256) + Bit(mode, 128) + Bit(mode, 64) + mode % 64
  {
    var q := mode / 64;
    assert mode / 128 == q / 2 && mode / 256 == q / 4;
  }

  lemma MiddleBits(mode: int)
    ensures mode % 64 == Bit(mode, 32) + Bit(mode, 16) + Bit(mode, 8) + mode % 8
  {
    var q := mode / 8;
    assert mode / 16 == q / 2 && mode / 32 == q / 4;
  }

  lemma LowBits(mode: int)
    ensures mode % 8 == Bit(mode, 4) + Bit(mode, 2) + Bit(mode, 1)
  {
  }

  // ---------------------------------------------------------------- building a tree

  /** The directories that ensureStageDirectories creates for a file. */
  function Parents(path: Bytes): set<Bytes> {
    set i | 0 < i < |path| && path[i] == SLASH :: path[..i]
  }

  /** The node of a payload file: its permission bits and its bytes. */
  function NodeOf(file: PayloadFile): Node {
    File(file.mode % 512, file.data)
  }

  /** The tree after createMaterializedFile; None when a parent is a file or the path is taken. */
  function AddFile(tree: Tree, file: PayloadFile): Option<Tree> {
    var parents := Parents(file.path);
    if file.path in tree || exists p <- parents :: p in tree && tree[p] != Dir then None
    else Some((map p | p in tree.Keys + parents :: if p in tree then tree[p] else Dir)
              [file.path := NodeOf(file)])
  }

  /** The parents that end before position i. */
  function ParentsBefore(path: Bytes, i: nat): set<Bytes> {
    set k | 0 < k < i && k < |path| && path[k] == SLASH :: path[..k]
  }

  function WithDirectories(tree: Tree, parents: set<Bytes>): Tree {
    map p | p in tree.Keys + parents :: if p in tree then tree[p] else Dir
  }

  lemma NextParent(path: Bytes, i: nat)
    requires 0 < i < |path|
    ensures ParentsBefore(path, i + 1) == ParentsBefore(path, i) + (if path[i] == SLASH then {path[..i]} else {})
  {
  }

  /** ensureStageDirectories: from the top down, create a missing directory or check that the existing entry is one. */
  method EnsureStageDirectories(tree: Tree, path: Bytes) returns (r: Option<Tree>)
    ensures r == if exists p <- Parents(path) :: p in tree && tree[p] != Dir then None
                 else Some(WithDirectories(tree, Parents(path)))
  {
    var staged := tree;
    var i := 1;
    assert WithDirectories(tree, {}) == tree;
    while i < |path|
      invariant 1 <= i && (i <= |path| || |path| == 0)
      invariant staged == WithDirectories(tree, ParentsBefore(path, i))
      invariant forall p <- ParentsBefore(path, i) :: p in tree ==> tree[p] == Dir
    {
      NextParent(path, i);
      if path[i] == SLASH {
        var current := path[..i];
        if current !in staged {
          staged := staged[current := Dir];
        } else if staged[current] != Dir {
          assert current in Parents(path);
          return None;
        }
      }
      i := i + 1;
    }
    assert ParentsBefore(path, i) == Parents(path);
    return Some(staged);
  }

  /** createMaterializedFile: the directories, an exclusive create, the bytes and the mode. */
  method CreateMaterializedFile(tree: Tree, file: PayloadFile) returns (r: Option<Tree>)
    ensures r == AddFile(tree, file)
  {
    var staged := EnsureStageDirectories(tree, file.path);
    assert file.path !in Parents(file.path);
    if staged.None? || file.path in staged.value {
      return None;
    }
    PayloadFileModeKeepsPermissions(file.mode);
    return Some(staged.value[file.path := File(PayloadFileMode(file.mode), file.data)]);
  }

  function Build(files: seq<PayloadFile>): Option<Tree> {
    if files == [] then Some(map[])
    else
      var tree := Build(files[..|files| - 1]);
      if tree.None? then None else AddFile(tree.value, files[|files| - 1])
  }

  // ---------------------------------------------------------------- exact contents

  predicate DistinctPaths(files: seq<PayloadFile>) {
    forall i, j :: 0 <= i < j < |files| ==> files[i].path != files[j].path
  }

  /** Directories and exactly the payload's files, with their permission bits and bytes. */
  ghost predicate Holds(tree: Tree, files: seq<PayloadFile>) {
    && (forall p :: p in tree ==> tree[p] != Other)
    && (forall p :: p in tree && tree[p].File? ==> exists f <- files :: f.path == p)
    && (forall f <- files :: f.path in tree && tree[f.path] == NodeOf(f))
  }

  lemma AddFileHolds(tree: Tree, files: seq<PayloadFile>, file: PayloadFile)
    requires Holds(tree, files) && AddFile(tree, file).Some?
    ensures Holds(AddFile(tree, file).value, files + [file])
    ensures file.path in AddFile(tree, file).value
  {
    var tree' := AddFile(tree, file).value;
    HoldsSnoc(tree, files, file, tree');
  }

  lemma HoldsSnoc(tree: Tree, files: seq<PayloadFile>, file: PayloadFile, tree': Tree)
    requires Holds(tree, files) && file.path !in tree
    requires file.path in tree' && tree'[file.path] == NodeOf(file)
    requires forall p :: p in tree ==> p in tree' && tree'[p] == tree[p]
    requires forall p :: p in tree' && p !in tree && p != file.path ==> tree'[p] == Dir
    ensures Holds(tree', files + [file])
  {
    assert file in files + [file] && forall f <- files :: f in files + [file];
    forall p | p in tree' && tree'[p].File? ensures exists f <- files + [file] :: f.path == p {
      if p in tree {
        var f :| f in files && f.path == p;
        assert f in files + [file];
      }
    }
    assert forall f <- files + [file] :: f in files || f == file;
  }

  lemma {:induction false} BuildHolds(files: seq<PayloadFile>)
    requires Build(files).Some?
    ensures Holds(Build(files).value, files)
    ensures files != [] ==> Build(files).value != map[]
  {
    if files != [] {
      var n := |files| - 1;
      BuildHolds(files[..n]);
      AddFileHolds(Build(files[..n]).value, files[..n], files[n]);
      assert files[..n] + [files[n]] == files;
    }
  }

  // ---------------------------------------------------------------- which payloads can be materialized

  /** The two files can be below one directory: neither path is the other one, or a directory above it. */
  predicate Compatible(a: PayloadFile, b: PayloadFile) {
    a.path != b.path && a.path !in Parents(b.path) && b.path !in Parents(a.path)
  }

  predicate AllCompatible(files: seq<PayloadFile>) {
    forall i, j :: 0 <= i < j < |files| ==> Compatible(files[i], files[j])
  }

  /** The entries of a built tree are the files and the directories above them. */
  ghost predicate Covers(tree: Tree, files: seq<PayloadFile>) {
    forall p :: p in tree <==> exists f :: f in files && (p == f.path || p in Parents(f.path))
  }

  lemma AddFileCovers(tree: Tree, files: seq<PayloadFile>, file: PayloadFile)
    requires Covers(tree, files) && AddFile(tree, file).Some?
    ensures Covers(AddFile(tree, file).value, files + [file])
  {
    var tree' := AddFile(tree, file).value;
    forall p ensures p in tree' <==> exists f :: f in files + [file] && (p == f.path || p in Parents(f.path)) {
      assert file in files + [file];
      if f :| f in files + [file] && (p == f.path || p in Parents(f.path)) {
        assert f in files || f == file;
      }
      if f :| f in files && (p == f.path || p in Parents(f.path)) {
        assert f in files + [file];
      }
    }
  }

  /** A file can be added exactly if it is compatible with every file that is there. */
  lemma AddFileIff(tree: Tree, files: seq<PayloadFile>, file: PayloadFile)
    requires Covers(tree, files) && Holds(tree, files)
    ensures AddFile(tree, file).Some? <==> forall f <- files :: Compatible(f, file)
  {
    if AddFile(tree, file).Some? {
      forall f <- files ensures Compatible(f, file) {
        assert f.path in tree && tree[f.path] == NodeOf(f);
      }
    } else if file.path in tree {
      var f :| f in files && (file.path == f.path || file.path in Parents(f.path));
      assert !Compatible(f, file);
    } else {
      var p :| p in Parents(file.path) && p in tree && tree[p] != Dir;
      var f :| f in files && f.path == p;
      assert !Compatible(f, file);
    }
  }

  lemma CompatibleSnoc(files: seq<PayloadFile>, file: PayloadFile)
    ensures AllCompatible(files + [file]) <==> AllCompatible(files) && forall f <- files :: Compatible(f, file)
  {
    var longer := files + [file];
    assert forall i :: 0 <= i < |files| ==> longer[i] == files[i];
    if AllCompatible(longer) {
      forall f <- files ensures Compatible(f, file) {
        var i :| 0 <= i < |files| && files[i] == f;
        assert Compatible(longer[i], longer[|files|]);
      }
      forall i, j | 0 <= i < j < |files| ensures Compatible(files[i], files[j]) {
        assert Compatible(longer[i], longer[j]);
      }
    }
  }

  /** A payload can be materialized exactly if no path occurs twice and no file's path is a directory above another file. */
  lemma {:induction false} BuildIffCompatible(files: seq<PayloadFile>)
    ensures Build(files).Some? <==> AllCompatible(files)
    ensures Build(files).Some? ==> Covers(Build(files).value, files)
  {
    if files != [] {
      var n := |files| - 1;
      BuildIffCompatible(files[..n]);
      CompatibleSnoc(files[..n], files[n]);
      assert files[..n] + [files[n]] == files;
      if Build(files[..n]).Some? {
        BuildHolds(files[..n]);
        AddFileIff(Build(files[..n]).value, files[..n], files[n]);
        if Build(files).Some? {
          AddFileCovers(Build(files[..n]).value, files[..n], files[n]);
        }
      }
    }
  }

  const A: Bytes := [97]
  const A_B: Bytes := [97, SLASH, 98]
  const FILE_A := PayloadFile(A, 0, [])
  const FILE_A_B := PayloadFile(A_B, 0, [])
  const ENTRY_A := Entry(A, Regular, 0, 0, [])
  const ENTRY_A_B := Entry(A_B, Regular, 0, 0, [])

  lemma SafeInstancePaths()
    ensures SafePath(A) && SafePath(A_B)
  {
    SplitPiece(A, SLASH);
    SplitPiece([98], SLASH);
    SplitCons(A, [98], SLASH);
    assert A_B == A + [SLASH] + [98];
  }

  lemma InstanceFiles()
    ensures RegularFiles([ENTRY_A, ENTRY_A_B]) == [FILE_A, FILE_A_B]
  {
    assert [ENTRY_A, ENTRY_A_B][..1] == [ENTRY_A] && [ENTRY_A][..0] == [];
    assert RegularFiles([ENTRY_A]) == [FILE_A];
  }

  lemma InstanceBytes()
    ensures TotalBytes([FILE_A, FILE_A_B]) == 0
  {
    assert [FILE_A, FILE_A_B][..1] == [FILE_A] && [FILE_A][..0] == [];
    assert TotalBytes([FILE_A]) == 0;
  }

  lemma InstanceConflicts()
    ensures !AllCompatible([FILE_A, FILE_A_B])
  {
    assert A_B[1] == SLASH && A_B[..1] == A;
    assert !Compatible([FILE_A, FILE_A_B][0], [FILE_A, FILE_A_B][1]);
  }

  /** Validation accepts an archive with the files a and a/b, which can never be materialized. */
  lemma AcceptedButNotMaterializable()
    ensures var entries := [ENTRY_A, ENTRY_A_B];
            ArchiveOk(entries) && RegularFiles(entries) != [] && Build(RegularFiles(entries)).None?
  {
    SafeInstancePaths();
    InstanceFiles();
    InstanceBytes();
    InstanceConflicts();
    BuildIffCompatible([FILE_A, FILE_A_B]);
  }

  /** Two payloads that one tree holds have the same files. */
  lemma HoldsDetermines(tree: Tree, files: seq<PayloadFile>, files': seq<PayloadFile>, f: PayloadFile)
    requires Holds(tree, files) && Holds(tree, files') && f in files
    requires forall g :: g in files || g in files' ==> 0 <= g.mode <= MAX_MODE
    ensures f in files'
  {
    assert tree[f.path] == NodeOf(f);
    var g :| g in files' && g.path == f.path;
    assert NodeOf(f) == NodeOf(g);
  }

  // ---------------------------------------------------------------- verifyExistingMaterializedPayload

  /** What WalkDir yields below the root: every entry once. */
  ghost predicate Walks(walk: seq<Bytes>, tree: Tree) {
    && (forall i, j :: 0 <= i < j < |walk| ==> walk[i] != walk[j])
    && (forall p :: p in walk <==> p in tree)
  }

  /** The index of a payload by path. */
  ghost predicate Indexes(expected: map<Bytes, PayloadFile>, files: seq<PayloadFile>) {
    && (forall p :: p in expected ==> expected[p] in files && expected[p].path == p)
    && (forall f <- files :: f.path in expected && expected[f.path] == f)
  }

  ghost predicate Indexable(files: seq<PayloadFile>) {
    DistinctPaths(files) && forall i :: 0 <= i < |files| ==> SafePath(files[i].path)
  }

  lemma IndexSnoc(expected: map<Bytes, PayloadFile>, files: seq<PayloadFile>, file: PayloadFile)
    requires Indexes(expected, files) && Indexable(files)
    ensures Indexable(files + [file]) <==> SafePath(file.path) && file.path !in expected
    ensures file.path !in expected ==> Indexes(expected[file.path := file], files + [file])
  {
    var longer := files + [file];
    assert forall i :: 0 <= i < |files| ==> longer[i] == files[i] && files[i] in files;
    assert longer[|files|] == file;
    if file.path in expected {
      var i :| 0 <= i < |files| && files[i] == expected[file.path];
      assert longer[i].path == longer[|files|].path;
    }
    assert forall f <- longer :: f in files || f == file;
  }

  lemma PrefixIndexable(files: seq<PayloadFile>, n: nat)
    requires n <= |files|
    ensures Indexable(files) ==> Indexable(files[..n])
  {
  }

  lemma NextIndex(expected: map<Bytes, PayloadFile>, files: seq<PayloadFile>, n: nat)
    requires n < |files| && Indexable(files[..n]) && Indexes(expected, files[..n])
    ensures if SafePath(files[n].path) && files[n].path !in expected
            then Indexable(files[..n + 1]) && Indexes(expected[files[n].path := files[n]], files[..n + 1])
            else !Indexable(files)
  {
    IndexSnoc(expected, files[..n], files[n]);
    assert files[..n + 1] == files[..n] + [files[n]];
    PrefixIndexable(files, n + 1);
  }

  method ExpectedFiles(files: seq<PayloadFile>) returns (r: Option<map<Bytes, PayloadFile>>)
    ensures r.Some? <==> Indexable(files)
    ensures r.Some? ==> Indexes(r.value, files)
  {
    var expected: map<Bytes, PayloadFile> := map[];
    var n := 0;
    while n < |files|
      invariant 0 <= n <= |files|
      invariant Indexable(files[..n]) && Indexes(expected, files[..n])
    {
      CleanPayloadPathIffSafe(files[n].path);
      NextIndex(expected, files, n);
      var clean := CleanPayloadPath(files[n].path);
      if clean.None? || clean.value in expected {
        return None;
      }
      expected := expected[clean.value := files[n]];
      n := n + 1;
    }
    assert files[..n] == files;
    return Some(expected);
  }

  lemma SubsetOfSameSize(a: set<Bytes>, b: set<Bytes>)
    requires a <= b
    ensures |a| <= |b|
    ensures |a| == |b| <==> a == b
  {
    if a != b {
      var x :| x in b && x !in a;
      SubsetOfSameSize(a, b - {x});
    }
  }

  method FileMatches(mode: int, data: Bytes, file: PayloadFile) returns (ok: bool)
    ensures ok <==> File(mode, data) == NodeOf(file)
  {
    PayloadFileModeKeepsPermissions(file.mode);
    return mode == PayloadFileMode(file.mode) && |data| == |file.data| && data == file.data;
  }

  /** The files met by the walk so far, all of them as expected. */
  ghost predicate Matched(tree: Tree, walked: seq<Bytes>, expected: map<Bytes, PayloadFile>, matched: set<Bytes>) {
    && (forall p <- walked :: p in tree && tree[p] != Other && (tree[p].File? <==> p in matched))
    && (forall p <- matched :: p in walked && p in expected && tree[p] == NodeOf(expected[p]))
  }

  /** After a complete walk, the tree holds the payload iff as many files were matched as are expected. */
  lemma CountDecides(tree: Tree, walk: seq<Bytes>, files: seq<PayloadFile>, expected: map<Bytes, PayloadFile>, matched: set<Bytes>)
    requires Walks(walk, tree) && Indexes(expected, files) && Matched(tree, walk, expected, matched)
    ensures |matched| == |expected| <==> Holds(tree, files)
  {
    assert matched <= expected.Keys;
    SubsetOfSameSize(matched, expected.Keys);
    if matched == expected.Keys {
      forall p | p in tree && tree[p].File? ensures exists f <- files :: f.path == p {
        assert p in walk;
        assert expected[p] in files;
      }
      assert forall p :: p in tree ==> p in walk;
      assert forall f <- files :: f.path in matched;
    }
    if Holds(tree, files) {
      forall p | p in expected ensures p in matched {
        assert expected[p] in files;
        assert p in walk;
      }
    }
  }

  lemma MismatchRefutes(tree: Tree, name: Bytes, files: seq<PayloadFile>, expected: map<Bytes, PayloadFile>)
    requires Indexes(expected, files) && name in tree
    ensures tree[name] == Other || (tree[name].File? && (name !in expected || tree[name] != NodeOf(expected[name]))) ==>
              !Holds(tree, files)
  {
  }

  lemma MatchedSnoc(tree: Tree, walked: seq<Bytes>, expected: map<Bytes, PayloadFile>, matched: set<Bytes>, name: Bytes)
    requires Matched(tree, walked, expected, matched) && name in tree && name !in walked
    ensures name !in matched
    ensures tree[name] == Dir ==> Matched(tree, walked + [name], expected, matched)
    ensures tree[name].File? && name in expected && tree[name] == NodeOf(expected[name]) ==>
              Matched(tree, walked + [name], expected, matched + {name})
  {
    assert forall p <- walked + [name] :: p in walked || p == name;
    assert forall p <- walked :: p in walked + [name];
    assert name in walked + [name];
  }

  lemma NewName(walk: seq<Bytes>, tree: Tree, n: nat)
    requires Walks(walk, tree) && n < |walk|
    ensures walk[n] in tree && walk[n] !in walk[..n] && walk[..n + 1] == walk[..n] + [walk[n]]
  {
    assert walk[n] in walk;
  }

  /** Counting the matched files is enough: the check succeeds exactly when the tree holds the payload. */
  method VerifyExisting(tree: Tree, walk: seq<Bytes>, files: seq<PayloadFile>) returns (ok: bool)
    requires Walks(walk, tree)
    ensures ok <==> Indexable(files) && Holds(tree, files)
  {
    var index := ExpectedFiles(files);
    if index.None? {
      return false;
    }
    var expected := index.value;
    var seen := 0;
    ghost var matched: set<Bytes> := {};
    var n := 0;
    while n < |walk|
      invariant 0 <= n <= |walk|
      invariant seen == |matched| && Matched(tree, walk[..n], expected, matched)
    {
      var name := walk[n];
      NewName(walk, tree, n);
      MatchedSnoc(tree, walk[..n], expected, matched, name);
      MismatchRefutes(tree, name, files, expected);
      match tree[name] {
      case Other =>
        return false;
      case Dir =>
      case File(mode, data) =>
        if name !in expected {
          return false;
        }
        var same := FileMatches(mode, data, expected[name]);
        if !same {
          return false;
        }
        seen := seen + 1;
        matched := matched + {name};
      }
      n := n + 1;
    }
    assert walk[..n] == walk;
    CountDecides(tree, walk, files, expected, matched);
    return seen == |expected|;
  }
}
