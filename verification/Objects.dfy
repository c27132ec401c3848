/** The content-addressed object store and what it means for it to be whole. */
module Objects {
  import opened Prelude
  import M = Manifest
  import Segments

  newtype byte = x: int | 0 <= x < 256
  type Bytes = seq<byte>

  datatype Kind = BlobKind | TreeKind | CommitKind | ManifestKind | SegmentKind

  datatype TypedRef = TypedRef(kind: Kind, hash: Hash)

  /** `intent` to `evals` are blobs, `prompts` and `tools` trees of blobs. */
  datatype Commit = Commit(
    parent: Option<Hash>, author: string, timestamp: int, message: string, codeSha: Option<string>,
    prompts: Option<Hash>, tools: Option<Hash>, model: Option<Hash>,
    memorySnapshot: Option<Hash>, schemaVersion: Option<string>,
    intent: Option<Hash>, plan: Option<Hash>, transcript: Option<Hash>, evals: Option<Hash>,
    costCents: nat, peerUid: Option<nat>)

  datatype Object =
    | Blob(bytes: Bytes)
    | Tree(entries: map<string, TypedRef>)
    | CommitObject(commit: Commit)
    | ManifestObject(schemaVersion: string, refs: seq<M.SegmentRef>)
    | SegmentObject(segment: Segments.Segment)

  function KindOf(o: Object): Kind {
    match o
    case Blob(_) => BlobKind
    case Tree(_) => TreeKind
    case CommitObject(_) => CommitKind
    case ManifestObject(_, _) => ManifestKind
    case SegmentObject(_) => SegmentKind
  }

  type Store = map<Hash, Object>

  /** What the daemon runs against: the content address of an object, the secret
      scanner, which branch names are well formed, and which bytes are UTF-8.
      Addresses carry no kind tag, so that `addr` is injective on objects of every
      kind together is a hypothesis, stated where it is used. */
  datatype Env = Env(addr: Object -> Hash, rejects: (Object, bool) -> bool,
                     validName: string -> bool, utf8: Bytes -> bool)

  ghost predicate Injective(env: Env) {
    forall a, b :: env.addr(a) == env.addr(b) ==> a == b
  }

  ghost predicate Addressed(store: Store, env: Env) {
    forall h :: h in store ==> env.addr(store[h]) == h
  }

  /** First write wins: an existing file is left alone. */
  function Put(store: Store, o: Object, env: Env): Store {
    PutNew(store, env.addr(o), o)
  }

  function OptRef(kind: Kind, h: Option<Hash>): set<TypedRef> {
    if h.Some? then {TypedRef(kind, h.value)} else {}
  }

  /** Everything an object names directly, with the kind it is read as. */
  function Refs(o: Object): set<TypedRef> {
    match o
    case Blob(_) => {}
    case Tree(entries) => entries.Values
    case CommitObject(c) =>
      OptRef(CommitKind, c.parent) + OptRef(TreeKind, c.prompts) + OptRef(TreeKind, c.tools)
      + OptRef(BlobKind, c.model) + OptRef(ManifestKind, c.memorySnapshot) + OptRef(BlobKind, c.intent)
      + OptRef(BlobKind, c.plan) + OptRef(BlobKind, c.transcript) + OptRef(BlobKind, c.evals)
    case ManifestObject(_, refs) => set r | r in refs :: TypedRef(SegmentKind, r.segment)
    case SegmentObject(_) => {}
  }

  predicate Has(store: Store, r: TypedRef) {
    r.hash in store && KindOf(store[r.hash]) == r.kind
  }

  /** No object in the store dangles. */
  ghost predicate Whole(store: Store) {
    forall h, r :: h in store && r in Refs(store[h]) ==> Has(store, r)
  }

  /** `path` follows references from an object of the store. */
  ghost predicate Path(store: Store, start: TypedRef, path: seq<TypedRef>)
    decreases |path|
  {
    path == [] ||
    (start.hash in store && path[0] in Refs(store[start.hash]) && Path(store, path[0], path[1..]))
  }

  /** In a whole store the closure of every object is present: whatever a chain of
      references of any length arrives at is there, and of the expected kind. */
  lemma {:induction false} ClosurePresent(store: Store, start: TypedRef, path: seq<TypedRef>)
    requires Whole(store) && Has(store, start) && Path(store, start, path)
    ensures forall i :: 0 <= i < |path| ==> Has(store, path[i])
    decreases |path|
  {
    if path != [] {
      assert Has(store, path[0]);
      ClosurePresent(store, path[0], path[1..]);
    }
  }

  lemma PutKeeps(store: Store, o: Object, env: Env)
    requires Injective(env) && Addressed(store, env)
    ensures var s := Put(store, o, env);
            && Addressed(s, env) && env.addr(o) in s && s[env.addr(o)] == o
            && forall h :: h in store ==> h in s && s[h] == store[h]
  {
  }

  /** Without kind separation the store is not safe: if a blob shares its bytes
      with a tree, whichever is put first is what every later read of that address
      gets, and the second put reports success. */
  lemma SharedBytesShadow(store: Store, first: Object, second: Object, env: Env)
    requires env.addr(first) == env.addr(second) && env.addr(first) !in store
    ensures var s := Put(Put(store, first, env), second, env);
            && s[env.addr(second)] == first
            && (s[env.addr(second)] == second <==> first == second)
            && (KindOf(first) != KindOf(second) ==> !Has(s, TypedRef(KindOf(second), env.addr(second))))
  {
  }

  // -------------------------------------------------------------------- reading

  function LoadCommit(store: Store, h: Hash): Option<Commit> {
    if h in store && store[h].CommitObject? then Some(store[h].commit) else None
  }

  function LoadTree(store: Store, h: Hash): Option<map<string, TypedRef>> {
    if h in store && store[h].Tree? then Some(store[h].entries) else None
  }

  function LoadBlob(store: Store, h: Hash): Option<Bytes> {
    if h in store && store[h].Blob? then Some(store[h].bytes) else None
  }

  /** In a whole store everything a commit names can be loaded as what it is: its
      parent, both trees with every blob in them, its blobs, its manifest and every
      segment the manifest lists. */
  lemma CommitParts(store: Store, h: Hash, c: Commit)
    requires Whole(store) && LoadCommit(store, h) == Some(c)
    ensures c.parent.Some? ==> LoadCommit(store, c.parent.value).Some?
    ensures forall t :: t in {c.prompts, c.tools} && t.Some? ==>
      && LoadTree(store, t.value).Some?
      && forall n :: n in LoadTree(store, t.value).value ==> Has(store, LoadTree(store, t.value).value[n])
    ensures forall b :: b in {c.model, c.intent, c.plan, c.transcript, c.evals} && b.Some? ==> LoadBlob(store, b.value).Some?
    ensures c.memorySnapshot.Some? ==>
      && c.memorySnapshot.value in store && store[c.memorySnapshot.value].ManifestObject?
      && forall r :: r in store[c.memorySnapshot.value].refs ==> r.segment in store && store[r.segment].SegmentObject?
  {
    hide Refs, Whole;
    var o := store[h];
    CommitNames(o, c);
    if c.parent.Some? { Named(store, h, TypedRef(CommitKind, c.parent.value)); }
    forall t | t in {c.prompts, c.tools} && t.Some?
      ensures LoadTree(store, t.value).Some?
      ensures forall n :: n in LoadTree(store, t.value).value ==> Has(store, LoadTree(store, t.value).value[n])
    {
      Named(store, h, TypedRef(TreeKind, t.value));
      TreeParts(store, t.value);
    }
    forall b | b in {c.model, c.intent, c.plan, c.transcript, c.evals} && b.Some? ensures LoadBlob(store, b.value).Some? {
      Named(store, h, TypedRef(BlobKind, b.value));
    }
    if c.memorySnapshot.Some? {
      Named(store, h, TypedRef(ManifestKind, c.memorySnapshot.value));
      ManifestParts(store, c.memorySnapshot.value);
    }
  }

  lemma CommitNames(o: Object, c: Commit)
    requires o == CommitObject(c)
    ensures c.parent.Some? ==> TypedRef(CommitKind, c.parent.value) in Refs(o)
    ensures forall t :: t in {c.prompts, c.tools} && t.Some? ==> TypedRef(TreeKind, t.value) in Refs(o)
    ensures forall b :: b in {c.model, c.intent, c.plan, c.transcript, c.evals} && b.Some? ==>
      TypedRef(BlobKind, b.value) in Refs(o)
    ensures c.memorySnapshot.Some? ==> TypedRef(ManifestKind, c.memorySnapshot.value) in Refs(o)
  {
  }

  lemma TreeParts(store: Store, t: Hash)
    requires Whole(store) && LoadTree(store, t).Some?
    ensures forall n :: n in LoadTree(store, t).value ==> Has(store, LoadTree(store, t).value[n])
  {
    var es := LoadTree(store, t).value;
    forall n | n in es ensures Has(store, es[n]) { Named(store, t, es[n]); }
  }

  lemma ManifestParts(store: Store, m: Hash)
    requires Whole(store) && m in store && store[m].ManifestObject?
    ensures forall r :: r in store[m].refs ==> r.segment in store && store[r.segment].SegmentObject?
  {
    forall r | r in store[m].refs ensures r.segment in store && store[r.segment].SegmentObject? {
      Named(store, m, TypedRef(SegmentKind, r.segment));
    }
  }

  lemma Named(store: Store, h: Hash, r: TypedRef)
    requires Whole(store) && h in store && r in Refs(store[h])
    ensures Has(store, r)
  {
  }
}
