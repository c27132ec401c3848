/** Rollback's directory restore: write every prompt through a temporary sibling,
    then sweep what does not belong. */
module Writeback {
  import opened Prelude
  import opened Objects

  /** Path components below `prompts/`; the directory itself is `[]`. */
  type Path = seq<string>

  /** A tree entry in name order: its path, and its blob if that can be loaded. */
  datatype Entry = Entry(path: Path, blob: Option<Bytes>)

  // ------------------------------------------------------------- the `.tmp` sibling

  function LastDot(name: string): (i: int)
    ensures -1 <= i < |name|
    ensures i >= 0 ==> name[i] == '.' && '.' !in name[i + 1..]
    ensures i < 0 ==> '.' !in name
  {
    if name == "" then -1
    else if name[|name| - 1] == '.' then |name| - 1
    else
      var i := LastDot(name[..|name| - 1]);
      assert name == name[..|name| - 1] + [name[|name| - 1]];
      i
  }

  /** `with_extension("tmp")` on a file name: a leading dot starts no extension. */
  function TmpName(name: string): string {
    if LastDot(name) <= 0 then name + ".tmp" else name[..LastDot(name)] + ".tmp"
  }

  lemma {:induction false} LastDotIs(name: string, i: nat)
    requires i < |name| && name[i] == '.' && forall k :: i < k < |name| ==> name[k] != '.'
    ensures LastDot(name) == i
  {
    if i < |name| - 1 { LastDotIs(name[..|name| - 1], i); }
  }

  lemma {:induction false} NoDot(name: string)
    requires forall k :: 0 <= k < |name| ==> name[k] != '.'
    ensures LastDot(name) == -1
  {
    if name != "" { NoDot(name[..|name| - 1]); }
  }

  /** The sibling of `stem.ext` is `stem.tmp`; of a name without a dot past its first
      character, the name with `.tmp` appended. */
  lemma TmpNameIs(stem: string, ext: string, name: string)
    requires stem != "" && forall k :: 0 <= k < |ext| ==> ext[k] != '.'
    requires forall k :: 1 <= k < |name| ==> name[k] != '.'
    ensures TmpName(stem + "." + ext) == stem + ".tmp" && TmpName(name) == name + ".tmp"
  {
    var full := stem + "." + ext;
    assert full[|stem|] == '.' && full[..|stem|] == stem;
    LastDotIs(full, |stem|);
    if name != "" && name[0] == '.' { LastDotIs(name, 0); } else { NoDot(name); }
  }

  function TmpOf(p: Path): (t: Path)
    requires p != []
    ensures |t| == |p|
  {
    p[..|p| - 1] + [TmpName(p[|p| - 1])]
  }

  // ------------------------------------------------------------- what the loop writes

  type FileMap = map<Path, Bytes>

  /** Write to the sibling, then rename it over the path. */
  function Replaced(files: FileMap, p: Path, bytes: Bytes): FileMap
    requires p != []
  {
    (files - {TmpOf(p)})[p := bytes]
  }

  ghost predicate Loaded(es: seq<Entry>) {
    forall i :: 0 <= i < |es| ==> es[i].path != [] && es[i].blob.Some?
  }

  function Written(files: FileMap, es: seq<Entry>): FileMap
    requires Loaded(es)
  {
    if es == [] then files
    else Replaced(Written(files, es[..|es| - 1]), es[|es| - 1].path, es[|es| - 1].blob.value)
  }

  function Wanted(es: seq<Entry>): set<Path> { set i | 0 <= i < |es| :: es[i].path }

  function Only(files: FileMap, keep: set<Path>): FileMap { map p | p in files && p in keep :: files[p] }

  ghost predicate DistinctPaths(es: seq<Entry>) {
    forall i, j :: 0 <= i < j < |es| ==> es[i].path != es[j].path
  }

  /** Exactly the tree's entries, with their bytes. */
  ghost predicate Mirrors(files: FileMap, es: seq<Entry>)
    requires Loaded(es)
  {
    files.Keys == Wanted(es) && forall i :: 0 <= i < |es| ==> es[i].path in files && files[es[i].path] == es[i].blob.value
  }

  /** No entry sits where a later entry puts its temporary file. */
  ghost predicate NoLaterTmp(es: seq<Entry>)
    requires Loaded(es)
  {
    forall i, j :: 0 <= i < j < |es| ==> TmpOf(es[j].path) != es[i].path
  }

  /** No later entry's temporary file takes this entry's place. */
  ghost predicate Spared(es: seq<Entry>, i: nat)
    requires Loaded(es) && i < |es|
  {
    forall j :: i < j < |es| ==> TmpOf(es[j].path) != es[i].path
  }

  lemma SparedSoFar(es: seq<Entry>, i: nat)
    requires Loaded(es) && i < |es| - 1
    ensures Spared(es, i) <==> Spared(es[..|es| - 1], i) && TmpOf(es[|es| - 1].path) != es[i].path
  {
    hide TmpOf;
    var front := es[..|es| - 1];
    assert forall j :: 0 <= j < |front| ==> front[j] == es[j];
  }

  /** What becomes of one entry: it survives unless a later entry's temporary file
      took its place and was renamed away. */
  lemma {:induction false} EntryFate(files: FileMap, es: seq<Entry>, i: nat)
    requires Loaded(es) && DistinctPaths(es) && i < |es|
    ensures var w := Written(files, es);
            if Spared(es, i) then es[i].path in w && w[es[i].path] == es[i].blob.value else es[i].path !in w
  {
    var n := |es| - 1;
    if i < n {
      hide TmpOf, Spared;
      EntryFate(files, es[..n], i);
      SparedSoFar(es, i);
      assert es[n].path != es[i].path;
    }
  }

  /** Distinct paths come back exactly if no entry is the temporary sibling of a
      later one: an earlier one in name order is silently lost. */
  lemma MirrorsIff(files: FileMap, es: seq<Entry>)
    requires Loaded(es) && DistinctPaths(es)
    ensures Mirrors(Only(Written(files, es), Wanted(es)), es) <==> NoLaterTmp(es)
  {
    hide TmpOf, Written;
    var w := Written(files, es);
    forall i | 0 <= i < |es|
      ensures es[i].path in Wanted(es)
      ensures (es[i].path in w && w[es[i].path] == es[i].blob.value) <==> Spared(es, i)
    {
      EntryFate(files, es, i);
    }
  }

  lemma SiblingName()
    ensures TmpName("a.txt") == "a.tmp"
  {
    var name := "a.txt";
    assert name[1] == '.' && name[2] != '.' && name[3] != '.' && name[4] != '.';
    assert LastDot(name) == 1;
    assert name[..1] + ".tmp" == "a.tmp";
  }

  /** The prompts `a.tmp` and `a.txt` cannot be restored together. */
  lemma TmpPromptIsLost(x: Bytes, y: Bytes)
    ensures var es := [Entry(["a.tmp"], Some(x)), Entry(["a.txt"], Some(y))];
            Writable(map[], {}, es) && Loaded(es) && ["a.tmp"] !in Written(map[], es)
  {
    var es := [Entry(["a.tmp"], Some(x)), Entry(["a.txt"], Some(y))];
    hide Written, Writable, TmpName, LastDot;
    SiblingName();
    assert TmpOf(es[1].path) == ["a.tmp"];
    EntryFate(map[], es, 0);
    TwoAtTop(es, "a.tmp", "a.txt");
  }

  /** Two entries at the top of an empty directory find their places free. */
  lemma TwoAtTop(es: seq<Entry>, a: string, b: string)
    requires |es| == 2 && Loaded(es) && es[0].path == [a] && es[1].path == [b]
    ensures Writable(map[], {}, es)
  {
    hide Written, TmpOf;
    assert [a][..0] == [] && [b][..0] == [];
    assert es[..0] == [] && es[..1] == [es[0]] && es[..2] == es;
    OnlyRoot(es);
    OnlyRoot(es[..1]);
    assert [] !in Written(map[], es[..0]) && [] !in Written(map[], es[..1]) by { RootNeverWritten(es[..0]); RootNeverWritten(es[..1]); }
  }

  lemma OnlyRoot(es: seq<Entry>)
    requires forall i :: 0 <= i < |es| ==> |es[i].path| == 1
    ensures DirsAfter({}, es) == {[]}
  {
    forall i, k | 0 <= i < |es| && 0 <= k < |es[i].path| ensures es[i].path[..k] == [] { }
  }

  lemma {:induction false} RootNeverWritten(es: seq<Entry>)
    requires Loaded(es)
    ensures [] !in Written(map[], es)
  {
    if es != [] { RootNeverWritten(es[..|es| - 1]); }
  }

  // ----------------------------------------------------------------- the directory

  /** `q` is a directory on the way to `p`. */
  predicate Above(q: Path, p: Path) { q < p }

  predicate HoldsWanted(d: Path, files: FileMap, wanted: set<Path>) {
    exists f :: f in files && f in wanted && Above(d, f)
  }

  /** No file stands at `p` or on the way to it. */
  predicate Clear(files: FileMap, p: Path) { forall k :: 0 <= k <= |p| ==> p[..k] !in files }

  function Prefixes(p: Path): set<Path> { set k | 0 <= k <= |p| :: p[..k] }

  class Directory {
    var files: FileMap
    var dirs: set<Path>

    /** Every file and directory has its parents. */
    ghost predicate Valid()
      reads this
    {
      && files.Keys !! dirs
      && (forall p, q :: p in files && Above(q, p) ==> q in dirs)
      && (forall p, q :: p in dirs && Above(q, p) ==> q in dirs)
    }

    constructor (fs: FileMap, ds: set<Path>)
      ensures files == fs && dirs == ds
    {
      files, dirs := fs, ds;
    }

    method CreateDirAll(p: Path) returns (ok: bool)
      requires Valid()
      modifies this`dirs
      ensures Valid()
      ensures ok <==> Clear(files, p)
      ensures ok ==> dirs == old(dirs) + Prefixes(p)
    {
      for k := 0 to |p| + 1
        invariant Valid()
        invariant dirs == old(dirs) + set j | 0 <= j < k :: p[..j]
        invariant forall j :: 0 <= j < k ==> p[..j] !in files
      {
        if p[..k] in files { return false; }
        forall q | Above(q, p[..k]) ensures q in dirs {
          assert q == p[..|q|];
        }
        dirs := dirs + {p[..k]};
      }
      assert Prefixes(p) == set j | 0 <= j < |p| + 1 :: p[..j];
      return true;
    }

    method WriteBlobSafely(p: Path, bytes: Bytes) returns (ok: bool)
      requires Valid() && p != []
      modifies this`files
      ensures Valid()
      ensures ok ==> files == Replaced(old(files), p, bytes)
      ensures ok <==> p[..|p| - 1] in dirs && TmpOf(p) !in dirs && p !in dirs
    {
      var tmp := TmpOf(p);
      assert tmp[..|p| - 1] == p[..|p| - 1];
      if p[..|p| - 1] !in dirs || tmp in dirs { return false; }
      ParentsOf(p);
      ParentsOf(tmp);
      files := files[tmp := bytes];
      if p in dirs { return false; }
      files := (files - {tmp})[p := files[tmp]];
      return true;
    }

    /** Restore the tree's entries and sweep the rest. It succeeds exactly if every
        entry can be loaded and finds its place free; then only entries stay, and no
        directory is left empty. */
    method RestorePrompts(es: seq<Entry>) returns (ok: bool)
      requires Valid()
      modifies this
      ensures Valid()
      ensures ok <==> Writable(old(files), old(dirs), es)
      ensures ok ==> Loaded(es) && files == Only(Written(old(files), es), Wanted(es))
      ensures ok ==> forall d :: d in dirs && d != [] ==> HoldsWanted(d, files, Wanted(es))
      ensures ok && DistinctPaths(es) ==> (Mirrors(files, es) <==> NoLaterTmp(es))
    {
      hide Written, Replaced, TmpOf, Above, DirsAfter, PlaceFree, Writable;
      ghost var before, dirsBefore := files, dirs;
      RootFirst(before, dirsBefore, es);
      ok := CreateDirAll([]);
      if !ok { return; }
      NothingWritten(files, es);
      var wanted: set<Path> := {};
      for i := 0 to |es|
        invariant Valid() && [] in dirs && dirs == DirsAfter(dirsBefore, es[..i])
        invariant Writable(before, dirsBefore, es[..i])
        invariant Loaded(es[..i]) && files == Written(before, es[..i]) && wanted == Wanted(es[..i])
      {
        var p := es[i].path;
        WritableNext(before, dirsBefore, es, i);
        if Writable(before, dirsBefore, es) { WritablePrefix(before, dirsBefore, es, i + 1); }
        if p == [] { return false; }
        DirsNext(dirsBefore, es, i);
        Placed(files, dirs, p);
        var made := CreateDirAll(p[..|p| - 1]);
        if !made { return false; }
        if es[i].blob == None { return false; }
        var written := WriteBlobSafely(p, es[i].blob.value);
        if !written { return false; }
        WrittenNext(before, es, i);
        wanted := wanted + {p};
      }
      assert es[..|es|] == es;
      ghost var after := files;
      SweepOrphans([], wanted);
      SweptIsOnly(after, dirs, wanted);
      KeptStillHeld(after, wanted);
      assert forall d :: d in dirs && d != [] ==> d in Below([]) by { RootAbove(); }
      if DistinctPaths(es) { MirrorsIff(before, es); }
      return true;
    }

    /** Remove unwanted files below `here`, and directories left without any. */
    method SweepOrphans(here: Path, wanted: set<Path>)
      requires Valid()
      modifies this
      ensures Valid()
      ensures files == KeptFiles(old(files), Below(here), wanted)
      ensures dirs == KeptDirs(old(files), old(dirs), Below(here), wanted)
      decreases |set d | d in dirs && Above(here, d)|, 1
    {
      hide KeptFiles, KeptDirs, Above;
      ghost var fs, ds := files, dirs;
      var todo := ChildNames(files, dirs, here);
      ghost var names, done := todo, {};
      SweptNothing(fs, ds, here, wanted);
      while todo != {}
        invariant Valid() && todo !! done && todo + done == names
        invariant files == KeptFiles(fs, Children(here, done), wanted)
        invariant dirs == KeptDirs(fs, ds, Children(here, done), wanted)
        decreases |todo|
      {
        var name :| name in todo;
        var child := here + [name];
        KeptSubset(fs, ds, Children(here, done), wanted);
        ChildBelow(here, name, dirs, ds);
        SweepChild(child, wanted);
        KeptTwice(fs, ds, Children(here, done), AtOrBelow(child), wanted);
        NextChild(here, done, name);
        todo, done := todo - {name}, done + {name};
      }
      AllChildren(fs, ds, here, names, wanted);
      assert done == names;
    }

    /** One child: a directory is swept and dropped if nothing is left in it. */
    method SweepChild(child: Path, wanted: set<Path>)
      requires Valid() && child != []
      modifies this
      ensures Valid()
      ensures files == KeptFiles(old(files), AtOrBelow(child), wanted)
      ensures dirs == KeptDirs(old(files), old(dirs), AtOrBelow(child), wanted)
      decreases |set d | d in dirs && (d == child || Above(child, d))|, 0
    {
      if child in dirs {
        Narrower((set d | d in dirs && Above(child, d)), (set d | d in dirs && (d == child || Above(child, d))), child);
        SweepOrphans(child, wanted);
        if (forall f :: f in files ==> !Above(child, f)) && (forall d :: d in dirs ==> !Above(child, d)) {
          dirs := dirs - {child};
        }
      } else if child in files && child !in wanted {
        files := files - {child};
      }
    }
  }

  /** Directories once these entries' parents have been made. */
  function DirsAfter(dirs: set<Path>, es: seq<Entry>): set<Path> {
    dirs + {[]} + set i, k | 0 <= i < |es| && 0 <= k < |es[i].path| :: es[i].path[..k]
  }

  /** No file stands on the way, and neither the path nor its sibling is a directory. */
  predicate PlaceFree(files: FileMap, dirs: set<Path>, p: Path)
    requires p != []
  {
    Clear(files, p[..|p| - 1]) && p !in dirs && TmpOf(p) !in dirs
  }

  /** Every entry has a usable name and a readable blob, and finds its place free
      when its turn comes. */
  ghost predicate Writable(files: FileMap, dirs: set<Path>, es: seq<Entry>) {
    [] !in files && Loaded(es) && forall i :: 0 <= i < |es| ==> FreeInTurn(files, dirs, es, i)
  }

  ghost predicate FreeInTurn(files: FileMap, dirs: set<Path>, es: seq<Entry>, i: nat)
    requires Loaded(es) && i < |es|
  {
    PlaceFree(Written(files, es[..i]), DirsAfter(dirs, es[..i + 1]), es[i].path)
  }

  lemma RootFirst(files: FileMap, dirs: set<Path>, es: seq<Entry>)
    ensures DirsAfter(dirs, es[..0]) == dirs + Prefixes([]) && [] in Prefixes([])
    ensures Clear(files, []) <==> Writable(files, dirs, es[..0])
    ensures Writable(files, dirs, es) ==> Clear(files, [])
  {
    var root: Path := [];
    assert root[..0] == root;
    assert es[..0] == [];
  }

  /** What the directory step and the write step test between them. */
  lemma Placed(files: FileMap, dirs: set<Path>, p: Path)
    requires p != []
    ensures var up := p[..|p| - 1];
            && up in dirs + Prefixes(up)
            && (PlaceFree(files, dirs + Prefixes(up), p) <==>
                Clear(files, up) && p !in dirs + Prefixes(up) && TmpOf(p) !in dirs + Prefixes(up))
  {
    hide TmpOf;
    var up := p[..|p| - 1];
    assert up[..|up|] == up;
  }

  lemma DirsNext(dirs: set<Path>, es: seq<Entry>, i: nat)
    requires i < |es| && es[i].path != []
    ensures var up := es[i].path[..|es[i].path| - 1];
            DirsAfter(dirs, es[..i + 1]) == DirsAfter(dirs, es[..i]) + Prefixes(up)
  {
    var p := es[i].path;
    var up := p[..|p| - 1];
    var (a, b) := (es[..i], es[..i + 1]);
    assert forall k :: 0 <= k <= |up| ==> up[..k] == p[..k];
    assert forall j :: 0 <= j < i ==> b[j] == a[j] == es[j];
    assert b[i] == es[i];
    forall x ensures x in DirsAfter(dirs, b) <==> x in DirsAfter(dirs, a) + Prefixes(up) {
      if x in DirsAfter(dirs, b) && x !in dirs + {[]} {
        var j, k :| 0 <= j < |b| && 0 <= k < |b[j].path| && x == b[j].path[..k];
        if j == i { assert x == up[..k]; } else { assert x == a[j].path[..k]; }
      }
      if x in Prefixes(up) {
        var k :| 0 <= k <= |up| && x == up[..k];
        assert x == b[i].path[..k];
      }
      if x in DirsAfter(dirs, a) && x !in dirs + {[]} {
        var j, k :| 0 <= j < |a| && 0 <= k < |a[j].path| && x == a[j].path[..k];
        assert x == b[j].path[..k];
      }
    }
  }

  /** One entry more: only its own place is in question. */
  lemma WritableNext(files: FileMap, dirs: set<Path>, es: seq<Entry>, i: nat)
    requires i < |es| && Writable(files, dirs, es[..i])
    ensures Writable(files, dirs, es[..i + 1]) <==>
      es[i].path != [] && es[i].blob.Some? &&
      PlaceFree(Written(files, es[..i]), DirsAfter(dirs, es[..i + 1]), es[i].path)
  {
    hide PlaceFree, Written, DirsAfter;
    var (a, b) := (es[..i], es[..i + 1]);
    assert b == a + [es[i]] && b[..i] == a && b[..i + 1] == b;
    if Loaded(b) {
      forall j | 0 <= j < i ensures FreeInTurn(files, dirs, b, j) <==> FreeInTurn(files, dirs, a, j) {
        assert b[j] == a[j] && b[..j] == a[..j] && b[..j + 1] == a[..j + 1];
      }
      assert FreeInTurn(files, dirs, b, i) <==>
        PlaceFree(Written(files, a), DirsAfter(dirs, b), es[i].path) by { assert b[i] == es[i]; }
    } else {
      assert forall j :: 0 <= j < i ==> b[j] == a[j];
      assert b[i] == es[i];
    }
  }

  lemma WritablePrefix(files: FileMap, dirs: set<Path>, es: seq<Entry>, n: nat)
    requires n <= |es| && Writable(files, dirs, es)
    ensures Writable(files, dirs, es[..n])
  {
    hide PlaceFree, Written, DirsAfter;
    forall j | 0 <= j < n ensures FreeInTurn(files, dirs, es[..n], j) {
      assert FreeInTurn(files, dirs, es, j);
      assert es[..n][j] == es[j] && es[..n][..j] == es[..j] && es[..n][..j + 1] == es[..j + 1];
    }
  }

  lemma NothingWritten(files: FileMap, es: seq<Entry>)
    ensures Loaded(es[..0]) && Written(files, es[..0]) == files && Wanted(es[..0]) == {}
  {
  }

  lemma WrittenNext(files: FileMap, es: seq<Entry>, i: nat)
    requires i < |es| && Loaded(es[..i]) && es[i].path != [] && es[i].blob.Some?
    ensures Loaded(es[..i + 1])
    ensures Written(files, es[..i + 1]) == Replaced(Written(files, es[..i]), es[i].path, es[i].blob.value)
    ensures Wanted(es[..i + 1]) == Wanted(es[..i]) + {es[i].path}
  {
    hide Replaced;
    assert es[..i + 1] == es[..i] + [es[i]];
    assert es[..i + 1][..i] == es[..i];
  }

  lemma RootAbove()
    ensures forall p: Path :: p != [] ==> Above([], p)
  {
  }

  lemma SweptIsOnly(fs: FileMap, ds: set<Path>, wanted: set<Path>)
    requires [] !in fs
    ensures KeptFiles(fs, Below([]), wanted) == Only(fs, wanted)
  {
    RootAbove();
  }

  lemma KeptStillHeld(fs: FileMap, wanted: set<Path>)
    requires [] !in fs
    ensures forall d :: HoldsWanted(d, fs, wanted) ==> HoldsWanted(d, Only(fs, wanted), wanted)
  {
    forall d | HoldsWanted(d, fs, wanted) ensures HoldsWanted(d, Only(fs, wanted), wanted) {
      var x :| x in fs && x in wanted && Above(d, x);
      assert x in Only(fs, wanted);
    }
  }

  function ChildNames(fs: FileMap, ds: set<Path>, here: Path): set<string> {
    set p | p in fs.Keys + ds && Above(here, p) :: p[|here|]
  }

  ghost function AtOrBelow(c: Path): iset<Path> { iset p | p == c || Above(c, p) }

  ghost function Below(here: Path): iset<Path> { iset p | Above(here, p) }

  /** Everything below `here` through one of the children named. */
  ghost function Children(here: Path, names: set<string>): iset<Path> {
    iset p | Above(here, p) && p[|here|] in names
  }

  /** The files left once an area has been swept. */
  ghost function KeptFiles(fs: FileMap, swept: iset<Path>, wanted: set<Path>): FileMap {
    map f | f in fs && (f in swept ==> f in wanted) :: fs[f]
  }

  ghost function KeptDirs(fs: FileMap, ds: set<Path>, swept: iset<Path>, wanted: set<Path>): set<Path> {
    set d | d in ds && (d in swept ==> HoldsWanted(d, fs, wanted))
  }

  lemma SweptNothing(fs: FileMap, ds: set<Path>, here: Path, wanted: set<Path>)
    ensures KeptFiles(fs, Children(here, {}), wanted) == fs && KeptDirs(fs, ds, Children(here, {}), wanted) == ds
  {
  }

  lemma KeptSubset(fs: FileMap, ds: set<Path>, swept: iset<Path>, wanted: set<Path>)
    ensures KeptDirs(fs, ds, swept, wanted) <= ds
  {
  }

  lemma ChildBelow(here: Path, name: string, now: set<Path>, before: set<Path>)
    requires now <= before
    ensures var child := here + [name];
            |set d | d in now && (d == child || Above(child, d))| <= |set d | d in before && Above(here, d)|
  {
    var child := here + [name];
    SubsetSize((set d | d in now && (d == child || Above(child, d))), (set d | d in before && Above(here, d)));
  }

  /** Sweeping two areas in turn is sweeping both. */
  lemma KeptTwice(fs: FileMap, ds: set<Path>, a: iset<Path>, b: iset<Path>, wanted: set<Path>)
    ensures var (f, d) := (KeptFiles(fs, a, wanted), KeptDirs(fs, ds, a, wanted));
            && KeptFiles(f, b, wanted) == KeptFiles(fs, a + b, wanted)
            && KeptDirs(f, d, b, wanted) == KeptDirs(fs, ds, a + b, wanted)
  {
    var f := KeptFiles(fs, a, wanted);
    forall d ensures HoldsWanted(d, f, wanted) <==> HoldsWanted(d, fs, wanted) {
      if HoldsWanted(d, fs, wanted) {
        var x :| x in fs && x in wanted && Above(d, x);
        assert x in f;
      }
    }
  }

  lemma NextChild(here: Path, done: set<string>, name: string)
    ensures Children(here, done + {name}) == Children(here, done) + AtOrBelow(here + [name])
  {
    var c := here + [name];
    forall p ensures p in Children(here, done + {name}) <==> p in Children(here, done) || p in AtOrBelow(c) {
      if here < p && p[|here|] == name { assert p[..|here| + 1] == c; }
    }
  }

  lemma AllChildren(fs: FileMap, ds: set<Path>, here: Path, names: set<string>, wanted: set<Path>)
    requires names == ChildNames(fs, ds, here)
    ensures KeptFiles(fs, Children(here, names), wanted) == KeptFiles(fs, Below(here), wanted)
    ensures KeptDirs(fs, ds, Children(here, names), wanted) == KeptDirs(fs, ds, Below(here), wanted)
  {
  }

  lemma ParentsOf(p: Path)
    requires p != []
    ensures forall q :: Above(q, p) ==> q == p[..|p| - 1] || Above(q, p[..|p| - 1])
  {
    var up := p[..|p| - 1];
    forall q | Above(q, p) ensures q == up || Above(q, up) {
      assert q == p[..|q|];
      assert up[..|q|] == p[..|q|];
    }
  }

  lemma Narrower(inner: set<Path>, outer: set<Path>, x: Path)
    requires inner <= outer && x in outer && x !in inner
    ensures |inner| < |outer|
  {
    assert outer == inner + (outer - inner);
    assert |outer| == |inner| + |outer - inner|;
  }
}
