/** Structural diff of two commits, and what its tree lists are good for. */
module Diff {
  import opened Prelude
  import opened Order
  import opened Objects

  type Entries = map<string, Hash>

  datatype TreeEntry = TreeEntry(name: string, hash: Hash)
  datatype TreeModification = TreeModification(name: string, from: Hash, to: Hash)
  datatype TreeDiff = TreeDiff(added: seq<TreeEntry>, removed: seq<TreeEntry>, modified: seq<TreeModification>)

  datatype Change<T> = Change(from: Option<T>, to: Option<T>)

  datatype CommitDiff = CommitDiff(
    codeSha: Option<Change<string>>, prompts: Option<TreeDiff>, tools: Option<TreeDiff>,
    model: Option<Change<string>>, memorySnapshot: Option<Change<Hash>>, schemaVersion: Option<Change<string>>)

  predicate IsEmpty(d: TreeDiff) {
    d.added == [] && d.removed == [] && d.modified == []
  }

  // ----------------------------------------------------------- what a diff must say

  /** `names` and `values` list the map in name order. */
  ghost predicate Lists<T(!new)>(names: seq<string>, values: seq<T>, m: map<string, T>) {
    && |names| == |values| && Ascending(names)
    && (forall n :: n in names <==> n in m)
    && (forall i :: 0 <= i < |names| ==> names[i] in m && m[names[i]] == values[i])
  }

  function Project<T, U>(xs: seq<T>, f: T -> U): (r: seq<U>)
    ensures |r| == |xs| && forall i :: 0 <= i < |xs| ==> r[i] == f(xs[i])
  {
    seq(|xs|, i requires 0 <= i < |xs| => f(xs[i]))
  }

  function Names(es: seq<TreeEntry>): seq<string> { Project(es, (e: TreeEntry) => e.name) }
  function HashesOf(es: seq<TreeEntry>): seq<Hash> { Project(es, (e: TreeEntry) => e.hash) }
  function ChangedNames(ms: seq<TreeModification>): seq<string> { Project(ms, (m: TreeModification) => m.name) }
  function Changes(ms: seq<TreeModification>): seq<(Hash, Hash)> { Project(ms, (m: TreeModification) => (m.from, m.to)) }

  function OnlyIn(b: Entries, a: Entries): Entries { map n | n in b && n !in a :: b[n] }

  function Differing(a: Entries, b: Entries): map<string, (Hash, Hash)> {
    map n | n in a && n in b && a[n] != b[n] :: (a[n], b[n])
  }

  /** The three lists say exactly, and in name order, how `b` differs from `a`. */
  ghost predicate Describes(d: TreeDiff, a: Entries, b: Entries) {
    && Lists(Names(d.added), HashesOf(d.added), OnlyIn(b, a))
    && Lists(Names(d.removed), HashesOf(d.removed), OnlyIn(a, b))
    && Lists(ChangedNames(d.modified), Changes(d.modified), Differing(a, b))
  }

  lemma {:induction false} ListsSnoc<T(!new)>(names: seq<string>, values: seq<T>, m: map<string, T>, n: string, v: T)
    requires Lists(names, values, m) && n !in m && forall x :: x in m ==> StrLess(x, n)
    ensures Lists(names + [n], values + [v], m[n := v])
  {
    hide StrLess;
    assert forall i :: 0 <= i < |names| ==> names[i] in names;
  }

  lemma ListsUnique<T(!new)>(a: seq<string>, x: seq<T>, b: seq<string>, y: seq<T>, m: map<string, T>)
    requires Lists(a, x, m) && Lists(b, y, m)
    ensures a == b && x == y
  {
    hide StrLess;
    AscendingUnique(a, b);
  }

  // -------------------------------------------------------------- the diff is a patch

  /** Apply a diff to a tree: drop the removed names, set the added and modified. */
  function Patch(a: Entries, d: TreeDiff): Entries {
    SetModified(SetAdded(a - (set e | e in d.removed :: e.name), d.added), d.modified)
  }

  function SetAdded(a: Entries, es: seq<TreeEntry>): Entries {
    if es == [] then a else SetAdded(a, es[..|es| - 1])[es[|es| - 1].name := es[|es| - 1].hash]
  }

  function SetModified(a: Entries, ms: seq<TreeModification>): Entries {
    if ms == [] then a else SetModified(a, ms[..|ms| - 1])[ms[|ms| - 1].name := ms[|ms| - 1].to]
  }

  function Reversed(d: TreeDiff): TreeDiff {
    TreeDiff(d.removed, d.added,
             seq(|d.modified|, i requires 0 <= i < |d.modified| =>
               TreeModification(d.modified[i].name, d.modified[i].to, d.modified[i].from)))
  }

  lemma {:induction false} SetAddedGives(a: Entries, es: seq<TreeEntry>, m: Entries)
    requires forall i :: 0 <= i < |es| ==> es[i].name in m && es[i].hash == m[es[i].name]
    ensures SetAdded(a, es) == a + Upto(m, Names(es))
  {
    if es == [] {
      assert Upto(m, Names(es)) == map[];
    } else {
      hide Names, Upto;
      var k := |es| - 1;
      SetAddedGives(a, es[..k], m);
      assert es == es[..k] + [es[k]];
      EntrySnoc(es[..k], es[k]);
      UptoSnoc(a, m, Names(es[..k]), es[k].name);
    }
  }

  /** One more name, set on top of `a`. */
  lemma UptoSnoc(a: Entries, m: Entries, names: seq<string>, n: string)
    requires n in m
    ensures a + Upto(m, names + [n]) == (a + Upto(m, names))[n := m[n]]
  {
  }

  lemma {:induction false} SetModifiedGives(a: Entries, ms: seq<TreeModification>, m: Entries)
    requires forall i :: 0 <= i < |ms| ==> ms[i].name in m && ms[i].to == m[ms[i].name]
    ensures SetModified(a, ms) == a + Upto(m, ChangedNames(ms))
  {
    if ms == [] {
      assert Upto(m, ChangedNames(ms)) == map[];
    } else {
      hide ChangedNames, Upto;
      var k := |ms| - 1;
      SetModifiedGives(a, ms[..k], m);
      assert ms == ms[..k] + [ms[k]];
      ChangeSnoc(ms[..k], ms[k]);
      UptoSnoc(a, m, ChangedNames(ms[..k]), ms[k].name);
    }
  }

  lemma NamesAreNames(es: seq<TreeEntry>, n: string)
    ensures n in Names(es) <==> n in (set e | e in es :: e.name)
  {
    if n in Names(es) {
      var i :| 0 <= i < |es| && Names(es)[i] == n;
      assert es[i] in es;
    }
    if n in (set e | e in es :: e.name) {
      var e :| e in es && e.name == n;
      var i :| 0 <= i < |es| && es[i] == e;
      assert Names(es)[i] == n;
    }
  }

  lemma AddedAll(a: Entries, es: seq<TreeEntry>, m: Entries)
    requires Lists(Names(es), HashesOf(es), m)
    ensures SetAdded(a, es) == a + m
  {
    hide StrLess, SetAdded, Ascending;
    forall i | 0 <= i < |es| ensures es[i].name in m && es[i].hash == m[es[i].name] {
      assert Names(es)[i] in m && m[Names(es)[i]] == HashesOf(es)[i];
    }
    SetAddedGives(a, es, m);
    assert Upto(m, Names(es)) == m;
  }

  lemma ModifiedAll(a: Entries, ms: seq<TreeModification>, x: Entries, y: Entries)
    requires Lists(ChangedNames(ms), Changes(ms), Differing(x, y))
    ensures SetModified(a, ms) == a + (map n | n in Differing(x, y) :: y[n])
  {
    hide StrLess, SetModified, Ascending;
    forall i | 0 <= i < |ms| ensures ms[i].name in y && ms[i].to == y[ms[i].name] {
      assert ChangedNames(ms)[i] in Differing(x, y) && Differing(x, y)[ChangedNames(ms)[i]] == Changes(ms)[i];
    }
    SetModifiedGives(a, ms, y);
    assert Upto(y, ChangedNames(ms)) == (map n | n in Differing(x, y) :: y[n]);
  }

  /** Applying the diff to the first tree gives the second. */
  lemma PatchGives(a: Entries, b: Entries, d: TreeDiff)
    requires Describes(d, a, b)
    ensures Patch(a, d) == b
  {
    hide StrLess, SetAdded, SetModified, Ascending;
    var gone := set e | e in d.removed :: e.name;
    assert gone == OnlyIn(a, b).Keys by {
      forall n ensures n in gone <==> n in OnlyIn(a, b) { NamesAreNames(d.removed, n); }
    }
    AddedAll(a - gone, d.added, OnlyIn(b, a));
    ModifiedAll(a - gone + OnlyIn(b, a), d.modified, a, b);
  }

  /** The reversed diff describes, and so undoes, the way back. */
  lemma ReverseUndoes(a: Entries, b: Entries, d: TreeDiff)
    requires Describes(d, a, b)
    ensures Describes(Reversed(d), b, a) && Patch(Patch(a, d), Reversed(d)) == a
  {
    hide StrLess, Patch;
    var r := Reversed(d);
    assert ChangedNames(r.modified) == ChangedNames(d.modified);
    forall i | 0 <= i < |r.modified|
      ensures ChangedNames(r.modified)[i] in Differing(b, a)
           && Differing(b, a)[ChangedNames(r.modified)[i]] == Changes(r.modified)[i]
    {
      assert Differing(a, b)[ChangedNames(d.modified)[i]] == Changes(d.modified)[i];
    }
    PatchGives(a, b, d);
    PatchGives(b, a, r);
  }

  /** No name is in two lists, and the diff is empty exactly when nothing differs. */
  lemma EmptyIff(a: Entries, b: Entries, d: TreeDiff)
    requires Describes(d, a, b)
    ensures IsEmpty(d) <==> a == b
    ensures forall n :: !(n in Names(d.added) && n in Names(d.removed))
                     && !(n in Names(d.added) && n in ChangedNames(d.modified))
                     && !(n in Names(d.removed) && n in ChangedNames(d.modified))
  {
    hide StrLess;
    if IsEmpty(d) {
      PatchGives(a, b, d);
      assert a - {} == a;
    } else if a == b {
      EmptyLists(Names(d.added), HashesOf(d.added), OnlyIn(b, a));
      EmptyLists(Names(d.removed), HashesOf(d.removed), OnlyIn(a, b));
      EmptyLists(ChangedNames(d.modified), Changes(d.modified), Differing(a, b));
    }
  }

  lemma EmptyLists<T(!new)>(names: seq<string>, values: seq<T>, m: map<string, T>)
    requires Lists(names, values, m)
    ensures |names| == 0 <==> m == map[]
  {
    if |names| > 0 {
      assert names[0] in m;
    } else {
      assert forall n :: n in m ==> n in names;
    }
  }

  /** There is only one diff: running it again gives the same lists. */
  lemma DiffUnique(a: Entries, b: Entries, d: TreeDiff, e: TreeDiff)
    requires Describes(d, a, b) && Describes(e, a, b)
    ensures d == e
  {
    hide StrLess, Lists;
    ListsUnique(Names(d.added), HashesOf(d.added), Names(e.added), HashesOf(e.added), OnlyIn(b, a));
    ListsUnique(Names(d.removed), HashesOf(d.removed), Names(e.removed), HashesOf(e.removed), OnlyIn(a, b));
    ListsUnique(ChangedNames(d.modified), Changes(d.modified), ChangedNames(e.modified), Changes(e.modified), Differing(a, b));
    SameEntries(d.added, e.added);
    SameEntries(d.removed, e.removed);
    forall i | 0 <= i < |d.modified| ensures d.modified[i] == e.modified[i] {
      assert ChangedNames(d.modified)[i] == ChangedNames(e.modified)[i] && Changes(d.modified)[i] == Changes(e.modified)[i];
    }
  }

  lemma SameEntries(x: seq<TreeEntry>, y: seq<TreeEntry>)
    requires Names(x) == Names(y) && HashesOf(x) == HashesOf(y)
    ensures x == y
  {
    forall i | 0 <= i < |x| ensures x[i] == y[i] {
      assert Names(x)[i] == Names(y)[i] && HashesOf(x)[i] == HashesOf(y)[i];
    }
  }

  // ------------------------------------------------------------------- the loop

  /** The part of a tree the loop has reached. */
  function Upto(a: Entries, names: seq<string>): Entries {
    map n | n in a && n in names :: a[n]
  }

  lemma EntrySnoc(es: seq<TreeEntry>, e: TreeEntry)
    ensures Names(es + [e]) == Names(es) + [e.name] && HashesOf(es + [e]) == HashesOf(es) + [e.hash]
  {
  }

  lemma ChangeSnoc(ms: seq<TreeModification>, m: TreeModification)
    ensures ChangedNames(ms + [m]) == ChangedNames(ms) + [m.name]
    ensures Changes(ms + [m]) == Changes(ms) + [(m.from, m.to)]
  {
  }

  /** The trees grown by one name, larger than all before it. */
  function With(a: Entries, n: string, h: Option<Hash>): Entries {
    if h.None? then a else a[n := h.value]
  }

  lemma DescribesNext(d: TreeDiff, a: Entries, b: Entries, n: string, x: Option<Hash>, y: Option<Hash>)
    requires Describes(d, a, b) && n !in a && n !in b
    requires forall m :: m in a || m in b ==> StrLess(m, n)
    ensures Describes(Extended(d, n, x, y), With(a, n, x), With(b, n, y))
  {
    hide StrLess, Lists, OnlyIn, Differing, Names, HashesOf, ChangedNames, Changes;
    OnlyInNext(a, b, n, x, y);
    OnlyInNext(b, a, n, y, x);
    DifferingNext(a, b, n, x, y);
    if x.Some? && y.Some? && x != y {
      ChangeSnoc(d.modified, TreeModification(n, x.value, y.value));
      ListsSnoc(ChangedNames(d.modified), Changes(d.modified), Differing(a, b), n, (x.value, y.value));
    } else if x.Some? && y.None? {
      EntrySnoc(d.removed, TreeEntry(n, x.value));
      ListsSnoc(Names(d.removed), HashesOf(d.removed), OnlyIn(a, b), n, x.value);
    } else if x.None? && y.Some? {
      EntrySnoc(d.added, TreeEntry(n, y.value));
      ListsSnoc(Names(d.added), HashesOf(d.added), OnlyIn(b, a), n, y.value);
    }
  }

  lemma OnlyInNext(a: Entries, b: Entries, n: string, x: Option<Hash>, y: Option<Hash>)
    requires n !in a && n !in b
    ensures OnlyIn(With(b, n, y), With(a, n, x)) == With(OnlyIn(b, a), n, if x.None? then y else None)
    ensures OnlyIn(b, a).Keys <= b.Keys
  {
  }

  lemma DifferingNext(a: Entries, b: Entries, n: string, x: Option<Hash>, y: Option<Hash>)
    requires n !in a && n !in b
    ensures Differing(With(a, n, x), With(b, n, y)) ==
            if x.Some? && y.Some? && x != y then Differing(a, b)[n := (x.value, y.value)] else Differing(a, b)
    ensures Differing(a, b).Keys <= a.Keys
  {
  }

  /** One more name: which list it goes to. */
  function Extended(d: TreeDiff, n: string, x: Option<Hash>, y: Option<Hash>): TreeDiff {
    match (x, y)
    case (None, Some(h)) => d.(added := d.added + [TreeEntry(n, h)])
    case (Some(h), None) => d.(removed := d.removed + [TreeEntry(n, h)])
    case (Some(g), Some(h)) => if g != h then d.(modified := d.modified + [TreeModification(n, g, h)]) else d
    case (None, None) => d
  }

  method DiffEntries(a: Entries, b: Entries) returns (d: TreeDiff)
    ensures Describes(d, a, b)
  {
    hide StrLess, Describes;
    d := TreeDiff([], [], []);
    var names := SortedKeys(a.Keys + b.Keys);
    assert names[..0] == [];
    NothingDiffers(a, b);
    for i := 0 to |names|
      invariant Describes(d, Upto(a, names[..i]), Upto(b, names[..i]))
    {
      var n := names[i];
      UptoNext(a, names, i);
      UptoNext(b, names, i);
      DescribesNext(d, Upto(a, names[..i]), Upto(b, names[..i]), n, Lookup(a, n), Lookup(b, n));
      if n !in a && n in b {
        d := d.(added := d.added + [TreeEntry(n, b[n])]);
      } else if n in a && n !in b {
        d := d.(removed := d.removed + [TreeEntry(n, a[n])]);
      } else if n in a && n in b && a[n] != b[n] {
        d := d.(modified := d.modified + [TreeModification(n, a[n], b[n])]);
      }
    }
    UptoAll(a, names);
    UptoAll(b, names);
  }

  lemma UptoAll(a: Entries, names: seq<string>)
    requires forall n :: n in a ==> n in names
    ensures Upto(a, names[..|names|]) == a
  {
    assert names[..|names|] == names;
  }

  lemma NothingDiffers(a: Entries, b: Entries)
    ensures Describes(TreeDiff([], [], []), Upto(a, []), Upto(b, []))
  {
  }

  lemma UptoNext(a: Entries, names: seq<string>, i: nat)
    requires Ascending(names) && i < |names|
    ensures var x := Upto(a, names[..i]);
            && names[i] !in x && (forall m :: m in x ==> StrLess(m, names[i]))
            && Upto(a, names[..i + 1]) == With(x, names[i], Lookup(a, names[i]))
  {
    hide StrLess;
    assert names[..i + 1] == names[..i] + [names[i]];
    StrTrichotomy(names[i], names[i]);
    forall m | m in Upto(a, names[..i]) ensures StrLess(m, names[i]) {
      var j :| 0 <= j < i && names[..i][j] == m;
    }
  }

  // ------------------------------------------------------------------- two commits

  /** What a tree hash stands for; `None` is the empty tree. */
  function Hashes(store: Store, h: Option<Hash>): Option<Entries> {
    if h.None? then Some(map[])
    else match LoadTree(store, h.value)
         case None => None
         case Some(es) => Some(map n | n in es :: es[n].hash)
  }

  /** Nothing to report exactly when the trees agree, and otherwise all of it. */
  ghost predicate TreeChange(d: Option<TreeDiff>, store: Store, a: Option<Hash>, b: Option<Hash>) {
    var x, y := Hashes(store, a), Hashes(store, b);
    && (d.None? <==> a == b || x == y)
    && (d.Some? ==> x.Some? && y.Some? && Describes(d.value, x.value, y.value))
  }

  method DiffTree(store: Store, a: Option<Hash>, b: Option<Hash>) returns (r: Outcome<Option<TreeDiff>>)
    ensures r.Done? <==> a == b || (Hashes(store, a).Some? && Hashes(store, b).Some?)
    ensures r.Done? ==> TreeChange(r.value, store, a, b)
  {
    hide Describes;
    if a == b { return Done(None); }
    var x, y := Hashes(store, a), Hashes(store, b);
    if x.None? || y.None? { return Failed; }
    var d := DiffEntries(x.value, y.value);
    EmptyIff(x.value, y.value, d);
    return Done(if IsEmpty(d) then None else Some(d));
  }

  /** Nothing to report exactly when the values agree, and otherwise both. */
  ghost predicate ChangeIs<T(!new)>(d: Option<Change<T>>, a: Option<T>, b: Option<T>) {
    && (d.None? <==> a == b)
    && (d.Some? ==> d.value.from == a && d.value.to == b)
  }

  /** A model hash reads as this text: none for no model, else the blob's, decoded. */
  ghost predicate Reads(store: Store, h: Option<Hash>, lossy: Bytes -> string, t: Option<string>) {
    match h
    case None => t == None
    case Some(k) => k in store && store[k].Blob? && t == Some(lossy(store[k].bytes))
  }

  /** Models are compared by hash first, then as texts. */
  ghost predicate ModelIs(d: Option<Change<string>>, store: Store, a: Option<Hash>, b: Option<Hash>, lossy: Bytes -> string) {
    && (a == b ==> d == None)
    && (a != b ==> exists x, y :: Reads(store, a, lossy, x) && Reads(store, b, lossy, y) && ChangeIs(d, x, y))
  }

  ghost predicate TreesLoad(store: Store, a: Option<Hash>, b: Option<Hash>) {
    a == b || (TreeLoads(store, a) && TreeLoads(store, b))
  }
  predicate TreeLoads(store: Store, h: Option<Hash>) { h.Some? ==> h.value in store && store[h.value].Tree? }
  predicate BlobLoads(store: Store, h: Option<Hash>) { h.Some? ==> h.value in store && store[h.value].Blob? }

  lemma ModelSays(store: Store, a: Option<Hash>, b: Option<Hash>, lossy: Bytes -> string)
    ensures DiffModel(store, a, b, lossy).Done? <==> a == b || (BlobLoads(store, a) && BlobLoads(store, b))
    ensures DiffModel(store, a, b, lossy).Done? ==> ModelIs(DiffModel(store, a, b, lossy).value, store, a, b, lossy)
  {
    var (x, y) := (ModelText(store, a, lossy), ModelText(store, b, lossy));
    if a != b && x.Done? && y.Done? {
      assert Reads(store, a, lossy, x.value) && Reads(store, b, lossy, y.value);
    }
  }

  lemma HashesLoad(store: Store, h: Option<Hash>)
    ensures Hashes(store, h).Some? <==> TreeLoads(store, h)
  {
  }

  function Changed<T(==)>(a: Option<T>, b: Option<T>): Option<Change<T>> {
    if a == b then None else Some(Change(a, b))
  }

  /** The model's text; `lossy` decodes any bytes. */
  function ModelText(store: Store, h: Option<Hash>, lossy: Bytes -> string): Outcome<Option<string>> {
    if h.None? then Done(None)
    else match LoadBlob(store, h.value)
         case None => Failed
         case Some(bytes) => Done(Some(lossy(bytes)))
  }

  function DiffModel(store: Store, a: Option<Hash>, b: Option<Hash>, lossy: Bytes -> string): Outcome<Option<Change<string>>> {
    if a == b then Done(None)
    else match (ModelText(store, a, lossy), ModelText(store, b, lossy))
         case (Done(x), Done(y)) => Done(Changed(x, y))
         case _ => Failed
  }

  /** The two commits agree on every dimension a diff looks at. */
  ghost predicate Agree(store: Store, a: Commit, b: Commit, lossy: Bytes -> string) {
    && a.codeSha == b.codeSha && a.memorySnapshot == b.memorySnapshot && a.schemaVersion == b.schemaVersion
    && (a.prompts == b.prompts || (Hashes(store, a.prompts).Some? && Hashes(store, a.prompts) == Hashes(store, b.prompts)))
    && (a.tools == b.tools || (Hashes(store, a.tools).Some? && Hashes(store, a.tools) == Hashes(store, b.tools)))
    && (a.model == b.model ||
        (ModelText(store, a.model, lossy).Done? && ModelText(store, a.model, lossy) == ModelText(store, b.model, lossy)))
  }

  predicate NoChange(d: CommitDiff) {
    d.codeSha.None? && d.prompts.None? && d.tools.None? && d.model.None? && d.memorySnapshot.None? && d.schemaVersion.None?
  }

  method DiffCommits(store: Store, from: Hash, to: Hash, lossy: Bytes -> string) returns (r: Outcome<CommitDiff>)
    ensures var (a, b) := (LoadCommit(store, from), LoadCommit(store, to));
            && (a.None? || b.None? ==> r.Failed?)
            && (a.Some? && b.Some? && Agree(store, a.value, b.value, lossy) ==> r.Done?)
            && (a.Some? && b.Some? ==>
                (r.Done? <==>
                 && TreesLoad(store, a.value.prompts, b.value.prompts) && TreesLoad(store, a.value.tools, b.value.tools)
                 && (a.value.model == b.value.model || (BlobLoads(store, a.value.model) && BlobLoads(store, b.value.model)))))
            && (r.Done? ==>
                && (NoChange(r.value) <==> Agree(store, a.value, b.value, lossy))
                && TreeChange(r.value.prompts, store, a.value.prompts, b.value.prompts)
                && TreeChange(r.value.tools, store, a.value.tools, b.value.tools)
                && ModelIs(r.value.model, store, a.value.model, b.value.model, lossy)
                && ChangeIs(r.value.codeSha, a.value.codeSha, b.value.codeSha)
                && ChangeIs(r.value.memorySnapshot, a.value.memorySnapshot, b.value.memorySnapshot)
                && ChangeIs(r.value.schemaVersion, a.value.schemaVersion, b.value.schemaVersion))
  {
    hide Describes, ModelIs;
    var a, b := LoadCommit(store, from), LoadCommit(store, to);
    if a.None? || b.None? { return Failed; }
    HashesLoad(store, a.value.prompts);
    HashesLoad(store, b.value.prompts);
    HashesLoad(store, a.value.tools);
    HashesLoad(store, b.value.tools);
    ModelSays(store, a.value.model, b.value.model, lossy);
    var prompts := DiffTree(store, a.value.prompts, b.value.prompts);
    if prompts.Failed? { return Failed; }
    var tools := DiffTree(store, a.value.tools, b.value.tools);
    if tools.Failed? { return Failed; }
    var model := DiffModel(store, a.value.model, b.value.model, lossy);
    if model.Failed? { return Failed; }
    return Done(CommitDiff(
      Changed(a.value.codeSha, b.value.codeSha), prompts.value, tools.value, model.value,
      Changed(a.value.memorySnapshot, b.value.memorySnapshot), Changed(a.value.schemaVersion, b.value.schemaVersion)));
  }
}
