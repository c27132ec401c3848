/** The read-through cache in front of the remote object store. */
module Cache {
  import opened Prelude
  import opened Objects

  /** What may sit at a cache path; a corrupted path can even be a directory. */
  datatype Entry = File(data: Bytes) | DirectoryEntry

  /** Compression, content addresses, and the typed form of an object. */
  datatype Codec<!O> = Codec(
    encode: Bytes -> Bytes, decode: Bytes -> Option<Bytes>, digest: Bytes -> Hash,
    parse: Bytes -> Option<O>, write: O -> Bytes, addr: O -> Hash)

  ghost predicate Lossless<O(!new)>(c: Codec<O>) {
    && (forall b :: c.decode(c.encode(b)) == Some(b))
    && (forall o :: c.parse(c.write(o)) == Some(o))
  }

  ghost predicate Collisionless<O(!new)>(c: Codec<O>) {
    && (forall a, b :: c.digest(a) == c.digest(b) ==> a == b)
    && (forall a, b :: c.addr(a) == c.addr(b) ==> a == b)
  }

  /** What the environment lets succeed during one read. */
  datatype ReadLuck = ReadLuck(readable: bool, evictable: bool, reachable: bool, writable: bool)

  /** What it lets succeed during one write. */
  datatype WriteLuck = WriteLuck(cached: bool, uploaded: bool, unlinked: bool)

  type CacheMap = map<Hash, Entry>
  type Remote = map<Hash, Bytes>

  // -------------------------------------------------------------------- reads

  /** The bytes at a cache path, if they can be read and decompressed. */
  function CacheRead<O>(c: Codec<O>, cache: CacheMap, h: Hash, luck: ReadLuck): Option<Bytes> {
    if h in cache && cache[h].File? && luck.readable then c.decode(cache[h].data) else None
  }

  function Hit<O, T>(c: Codec<O>, cache: CacheMap, h: Hash, check: Bytes -> Outcome<T>, luck: ReadLuck): Outcome<T> {
    match CacheRead(c, cache, h, luck) case None => Failed case Some(b) => check(b)
  }

  /** What a store without a cache returns. */
  function Plain<O, T>(c: Codec<O>, remote: Remote, h: Hash, check: Bytes -> Outcome<T>, reachable: bool): Outcome<T> {
    if !reachable || h !in remote || c.decode(remote[h]).None? then Failed else check(c.decode(remote[h]).value)
  }

  function CheckRaw<O>(c: Codec<O>, h: Hash): Bytes -> Outcome<Bytes> {
    b => if c.digest(b) == h then Done(b) else Failed
  }

  function CheckTyped<O>(c: Codec<O>, h: Hash): Bytes -> Outcome<O> {
    b => match c.parse(b)
         case None => Failed
         case Some(o) => if c.addr(o) == h then Done(o) else Failed
  }

  /** What a read returns: a verified hit, or what the uncached store returns. */
  function ReadResult<O, T>(c: Codec<O>, cache: CacheMap, remote: Remote, h: Hash,
                            check: Bytes -> Outcome<T>, luck: ReadLuck): Outcome<T> {
    var hit := Hit(c, cache, h, check, luck);
    if hit.Done? then hit else Plain(c, remote, h, check, luck.reachable)
  }

  /** Whether the store says it has the object. */
  predicate Reported(cache: CacheMap, remote: Remote, h: Hash, reachable: bool) {
    h in cache || (reachable && h in remote)
  }

  /** The cache after a read. */
  function AfterRead<O, T>(c: Codec<O>, cache: CacheMap, remote: Remote, h: Hash,
                           check: Bytes -> Outcome<T>, luck: ReadLuck): CacheMap {
    if Hit(c, cache, h, check, luck).Done? then cache
    else
      var evicted := if luck.evictable then cache - {h} else cache;
      if Plain(c, remote, h, check, luck.reachable).Failed? then evicted
      else if luck.writable && !(h in evicted && evicted[h].DirectoryEntry?) then evicted[h := File(remote[h])]
      else evicted
  }

  /** An entry this read may leave behind: the one that was there, or a download
      that passed the check. */
  ghost predicate KeepsOnlyVerified<O, T>(c: Codec<O>, before: CacheMap, after: CacheMap, remote: Remote, h: Hash,
                                          check: Bytes -> Outcome<T>) {
    && (forall k :: k != h ==> (k in after <==> k in before) && (k in before ==> after[k] == before[k]))
    && (h in after ==>
        || (h in before && after[h] == before[h])
        || (h in remote && after[h] == File(remote[h]) && c.decode(remote[h]).Some? && check(c.decode(remote[h]).value).Done?))
  }

  class GcsStore<O(0, !new)> {
    var cache: CacheMap
    var remote: Remote
    const codec: Codec<O>

    constructor (c: Codec<O>, cm: CacheMap, r: Remote)
      ensures codec == c && cache == cm && remote == r
    {
      codec, cache, remote := c, cm, r;
    }

    method CacheWrite(h: Hash, data: Bytes, lucky: bool) returns (ok: bool)
      modifies this`cache
      ensures ok <==> lucky && !(h in old(cache) && old(cache)[h].DirectoryEntry?)
      ensures cache == if ok then old(cache)[h := File(data)] else old(cache)
    {
      ok := lucky && !(h in cache && cache[h].DirectoryEntry?);
      if ok { cache := cache[h := File(data)]; }
    }

    method EvictCacheEntry(h: Hash, lucky: bool)
      modifies this`cache
      ensures cache == if lucky then old(cache) - {h} else old(cache)
    {
      if lucky { cache := cache - {h}; }
    }

    /** Serve a verified hit; otherwise evict, download, verify, then cache. */
    method FetchMap<T>(h: Hash, check: Bytes -> Outcome<T>, luck: ReadLuck) returns (r: Outcome<T>)
      modifies this`cache
      ensures r == ReadResult(codec, old(cache), remote, h, check, luck)
      ensures KeepsOnlyVerified(codec, old(cache), cache, remote, h, check)
      ensures cache == AfterRead(codec, old(cache), remote, h, check, luck)
    {
      if h in cache {
        var cached := CacheRead(codec, cache, h, luck);
        if cached.Some? {
          var v := check(cached.value);
          if v.Done? { return v; }
          EvictCacheEntry(h, luck.evictable);
        } else {
          EvictCacheEntry(h, luck.evictable);
        }
      }
      if !luck.reachable || h !in remote { return Failed; }
      var bytes := codec.decode(remote[h]);
      if bytes.None? { return Failed; }
      r := check(bytes.value);
      if r.Failed? { return; }
      var _ := CacheWrite(h, remote[h], luck.writable);
    }

    method GetRaw(h: Hash, luck: ReadLuck) returns (r: Outcome<Bytes>)
      modifies this`cache
      ensures r.Done? ==> codec.digest(r.value) == h
      ensures Collisionless(codec) && Plain(codec, remote, h, CheckRaw(codec, h), luck.reachable).Done? ==>
        r == Plain(codec, remote, h, CheckRaw(codec, h), luck.reachable)
      ensures KeepsOnlyVerified(codec, old(cache), cache, remote, h, CheckRaw(codec, h))
      ensures r == ReadResult(codec, old(cache), remote, h, CheckRaw(codec, h), luck)
      ensures cache == AfterRead(codec, old(cache), remote, h, CheckRaw(codec, h), luck)
    {
      r := FetchMap(h, CheckRaw(codec, h), luck);
    }

    method Get(h: Hash, luck: ReadLuck) returns (r: Outcome<O>)
      modifies this`cache
      ensures r.Done? ==> codec.addr(r.value) == h
      ensures Collisionless(codec) && Plain(codec, remote, h, CheckTyped(codec, h), luck.reachable).Done? ==>
        r == Plain(codec, remote, h, CheckTyped(codec, h), luck.reachable)
      ensures KeepsOnlyVerified(codec, old(cache), cache, remote, h, CheckTyped(codec, h))
      ensures r == ReadResult(codec, old(cache), remote, h, CheckTyped(codec, h), luck)
      ensures cache == AfterRead(codec, old(cache), remote, h, CheckTyped(codec, h), luck)
    {
      r := FetchMap(h, CheckTyped(codec, h), luck);
    }

    method Has(h: Hash, reachable: bool) returns (r: bool)
      ensures r == Reported(cache, remote, h, reachable)
    {
      if h in cache { return true; }
      return reachable && h in remote;
    }

    /** Cache first, then upload; a failed upload takes the cache entry back. */
    method Store(h: Hash, bytes: Bytes, rejected: bool, luck: WriteLuck) returns (r: Outcome<Hash>)
      modifies this
      ensures var w := Stored(codec, old(cache), old(remote), h, bytes, rejected, luck);
              cache == w.cache && remote == w.remote && r == if w.ok then Done(h) else Failed
    {
      if rejected { return Failed; }
      var data := codec.encode(bytes);
      var ok := CacheWrite(h, data, luck.cached);
      if !ok { return Failed; }
      if !luck.uploaded {
        if luck.unlinked { cache := cache - {h}; }
        return Failed;
      }
      remote := remote[h := data];
      return Done(h);
    }

    method PutRaw(bytes: Bytes, rejected: bool, luck: WriteLuck) returns (r: Outcome<Hash>)
      modifies this
      ensures var w := Stored(codec, old(cache), old(remote), codec.digest(bytes), bytes, rejected, luck);
              cache == w.cache && remote == w.remote && r == if w.ok then Done(codec.digest(bytes)) else Failed
    {
      r := Store(codec.digest(bytes), bytes, rejected, luck);
    }

    method PutTyped(o: O, rejected: bool, luck: WriteLuck) returns (r: Outcome<Hash>)
      modifies this
      ensures var w := Stored(codec, old(cache), old(remote), codec.addr(o), codec.write(o), rejected, luck);
              cache == w.cache && remote == w.remote && r == if w.ok then Done(codec.addr(o)) else Failed
    {
      r := Store(codec.addr(o), codec.write(o), rejected, luck);
    }
  }

  datatype WriteResult = WriteResult(cache: CacheMap, remote: Remote, ok: bool)

  function Stored<O>(c: Codec<O>, cache: CacheMap, remote: Remote, h: Hash, bytes: Bytes,
                     rejected: bool, luck: WriteLuck): WriteResult {
    if rejected || !luck.cached || (h in cache && cache[h].DirectoryEntry?) then WriteResult(cache, remote, false)
    else if luck.uploaded then
      WriteResult(cache[h := File(c.encode(bytes))], remote[h := c.encode(bytes)], true)
    else WriteResult(if luck.unlinked then cache - {h} else cache[h := File(c.encode(bytes))], remote, false)
  }

  // --------------------------------------------------------------- whole runs

  /** `tampered` holds the addresses whose cache entry was damaged and has not been
      verified, evicted or overwritten since. */
  datatype World = World(cache: CacheMap, remote: Remote, tampered: set<Hash>)

  /** Puts and reads of raw bytes and of typed objects, with any luck, and any damage
      done to either side in between. */
  datatype Op<O> =
    | PutRaw(bytes: Bytes, rejected: bool, w: WriteLuck)
    | PutTyped(o: O, rejected: bool, w: WriteLuck)
    | ReadRaw(h: Hash, r: ReadLuck)
    | ReadTyped(h: Hash, r: ReadLuck)
    | DamageCache(h: Hash, e: Option<Entry>)
    | DamageRemote(h: Hash, d: Option<Bytes>)

  predicate Blocked(cache: CacheMap, h: Hash) { h in cache && cache[h].DirectoryEntry? }

  function AfterPut<O>(c: Codec<O>, s: World, h: Hash, bytes: Bytes, rejected: bool, luck: WriteLuck): World {
    var w := Stored(c, s.cache, s.remote, h, bytes, rejected, luck);
    World(w.cache, w.remote, if rejected || !luck.cached || Blocked(s.cache, h) then s.tampered else s.tampered - {h})
  }

  /** A read that verifies, evicts or overwrites an entry leaves it in order. */
  predicate Settles<O, T>(c: Codec<O>, s: World, h: Hash, check: Bytes -> Outcome<T>, luck: ReadLuck) {
    || Hit(c, s.cache, h, check, luck).Done?
    || luck.evictable
    || (Plain(c, s.remote, h, check, luck.reachable).Done? && luck.writable && !Blocked(s.cache, h))
  }

  function AfterGet<O, T>(c: Codec<O>, s: World, h: Hash, check: Bytes -> Outcome<T>, luck: ReadLuck): World {
    World(AfterRead(c, s.cache, s.remote, h, check, luck), s.remote,
          if Settles(c, s, h, check, luck) then s.tampered - {h} else s.tampered)
  }

  function Next<O>(c: Codec<O>, s: World, op: Op<O>): World {
    match op
    case PutRaw(bytes, rejected, luck) => AfterPut(c, s, c.digest(bytes), bytes, rejected, luck)
    case PutTyped(o, rejected, luck) => AfterPut(c, s, c.addr(o), c.write(o), rejected, luck)
    case ReadRaw(h, luck) => AfterGet(c, s, h, CheckRaw(c, h), luck)
    case ReadTyped(h, luck) => AfterGet(c, s, h, CheckTyped(c, h), luck)
    case DamageCache(h, e) =>
      World(if e.None? then s.cache - {h} else s.cache[h := e.value], s.remote, s.tampered + {h})
    case DamageRemote(h, d) =>
      s.(remote := if d.None? then s.remote - {h} else s.remote[h := d.value])
  }

  function RunOps<O>(c: Codec<O>, s: World, ops: seq<Op<O>>): World {
    if ops == [] then s else Next(c, RunOps(c, s, ops[..|ops| - 1]), ops[|ops| - 1])
  }

  /** The bytes belong at `h`: as they are, or as the text of an object. */
  predicate Belongs<O>(c: Codec<O>, h: Hash, bytes: Bytes) {
    CheckRaw(c, h)(bytes).Done? || CheckTyped(c, h)(bytes).Done?
  }

  predicate Genuine<O>(c: Codec<O>, h: Hash, data: Bytes) {
    c.decode(data).Some? && Belongs(c, h, c.decode(data).value)
  }

  /** Whatever was not tampered with on local disk was verified. */
  ghost predicate CacheTrue<O>(c: Codec<O>, s: World) {
    forall h :: h in s.cache && h !in s.tampered ==> s.cache[h].File? && Genuine(c, h, s.cache[h].data)
  }

  /** No unverified download is ever written to the cache, even from a corrupted
      remote, and no put writes an entry under a wrong address. */
  lemma {:induction false} CacheStaysTrue<O(!new)>(c: Codec<O>, s: World, ops: seq<Op<O>>)
    requires Lossless(c) && CacheTrue(c, s)
    ensures CacheTrue(c, RunOps(c, s, ops))
  {
    if ops != [] {
      var n := |ops| - 1;
      CacheStaysTrue(c, s, ops[..n]);
      NextStaysTrue(c, RunOps(c, s, ops[..n]), ops[n]);
    }
  }

  lemma PutStaysTrue<O(!new)>(c: Codec<O>, s: World, h: Hash, bytes: Bytes, rejected: bool, luck: WriteLuck)
    requires Lossless(c) && CacheTrue(c, s) && Belongs(c, h, bytes)
    ensures CacheTrue(c, AfterPut(c, s, h, bytes, rejected, luck))
  {
    hide Belongs;
    assert Genuine(c, h, c.encode(bytes));
  }

  lemma GetStaysTrue<O(!new), T>(c: Codec<O>, s: World, h: Hash, check: Bytes -> Outcome<T>, luck: ReadLuck)
    requires CacheTrue(c, s) && forall b :: check(b).Done? ==> Belongs(c, h, b)
    ensures CacheTrue(c, AfterGet(c, s, h, check, luck))
  {
    hide Belongs;
  }

  lemma NextStaysTrue<O(!new)>(c: Codec<O>, s: World, op: Op<O>)
    requires Lossless(c) && CacheTrue(c, s)
    ensures CacheTrue(c, Next(c, s, op))
  {
    hide AfterPut, AfterGet;
    match op {
      case PutRaw(bytes, rejected, luck) => PutStaysTrue(c, s, c.digest(bytes), bytes, rejected, luck);
      case PutTyped(o, rejected, luck) => PutStaysTrue(c, s, c.addr(o), c.write(o), rejected, luck);
      case ReadRaw(h, luck) => GetStaysTrue(c, s, h, CheckRaw(c, h), luck);
      case ReadTyped(h, luck) => GetStaysTrue(c, s, h, CheckTyped(c, h), luck);
      case _ =>
    }
  }

  /** Self-healing: whatever sits in the cache, one read that gets through leaves an
      entry that serves every later read of that kind without the remote. */
  lemma ReadRepairs<O, T>(c: Codec<O>, s: World, h: Hash, check: Bytes -> Outcome<T>, luck: ReadLuck, later: ReadLuck)
    requires luck.evictable && luck.writable && Plain(c, s.remote, h, check, luck.reachable).Done? && later.readable
    ensures var s' := AfterGet(c, s, h, check, luck);
            && h !in s'.tampered
            && ((Hit(c, s.cache, h, check, luck).Done? && s'.cache == s.cache) || s'.cache[h] == File(s.remote[h]))
            && Hit(c, s'.cache, h, check, later).Done?
  {
  }

  // ------------------------------------------------------------------ the remote

  ghost predicate RemoteTrue<O>(c: Codec<O>, r: Remote) {
    forall h :: h in r ==> Genuine(c, h, r[h])
  }

  ghost predicate RemoteUnharmed<O(!new)>(ops: seq<Op<O>>) {
    forall i :: 0 <= i < |ops| ==> !ops[i].DamageRemote?
  }

  /** Without damage to the remote, it only ever gains genuine objects. */
  lemma {:induction false} RemoteStaysTrue<O(!new)>(c: Codec<O>, s: World, ops: seq<Op<O>>)
    requires Lossless(c) && RemoteTrue(c, s.remote) && RemoteUnharmed(ops)
    ensures RemoteTrue(c, RunOps(c, s, ops).remote)
    ensures s.remote.Keys <= RunOps(c, s, ops).remote.Keys
  {
    hide AfterRead, Settles;
    if ops != [] {
      var n := |ops| - 1;
      RemoteStaysTrue(c, s, ops[..n]);
    }
  }

  /** In good order the store reports an object exactly if it can be read back, as
      bytes or as an object: `has` never promises what a get would not deliver. */
  lemma HasIffReadable<O(!new)>(c: Codec<O>, s: World, h: Hash, luck: ReadLuck)
    requires CacheTrue(c, s) && RemoteTrue(c, s.remote) && h !in s.tampered && luck.readable
    ensures Reported(s.cache, s.remote, h, luck.reachable) <==>
      ReadResult(c, s.cache, s.remote, h, CheckRaw(c, h), luck).Done? ||
      ReadResult(c, s.cache, s.remote, h, CheckTyped(c, h), luck).Done?
  {
    hide CheckRaw, CheckTyped;
  }

  /** The remote holds this payload, in this form. */
  ghost predicate Holds<O, T>(c: Codec<O>, r: Remote, h: Hash, check: Bytes -> Outcome<T>, v: T) {
    h in r && c.decode(r[h]).Some? && check(c.decode(r[h]).value) == Done(v)
  }

  /** No put of this operation can replace the payload at `h` by another form. */
  predicate KeepsRaw<O>(c: Codec<O>, op: Op<O>, h: Hash) { op.PutTyped? ==> c.addr(op.o) != h }
  predicate KeepsTyped<O>(c: Codec<O>, op: Op<O>, h: Hash) { op.PutRaw? ==> c.digest(op.bytes) != h }

  lemma {:induction false} RawStays<O(!new)>(c: Codec<O>, s: World, bytes: Bytes, ops: seq<Op<O>>)
    requires Lossless(c) && Collisionless(c) && RemoteUnharmed(ops)
    requires Holds(c, s.remote, c.digest(bytes), CheckRaw(c, c.digest(bytes)), bytes)
    requires forall i :: 0 <= i < |ops| ==> KeepsRaw(c, ops[i], c.digest(bytes))
    ensures Holds(c, RunOps(c, s, ops).remote, c.digest(bytes), CheckRaw(c, c.digest(bytes)), bytes)
  {
    hide AfterRead, Settles;
    if ops != [] { RawStays(c, s, bytes, ops[..|ops| - 1]); }
  }

  lemma {:induction false} TypedStays<O(!new)>(c: Codec<O>, s: World, o: O, ops: seq<Op<O>>)
    requires Lossless(c) && Collisionless(c) && RemoteUnharmed(ops)
    requires Holds(c, s.remote, c.addr(o), CheckTyped(c, c.addr(o)), o)
    requires forall i :: 0 <= i < |ops| ==> KeepsTyped(c, ops[i], c.addr(o))
    ensures Holds(c, RunOps(c, s, ops).remote, c.addr(o), CheckTyped(c, c.addr(o)), o)
  {
    hide AfterRead, Settles;
    if ops != [] { TypedStays(c, s, o, ops[..|ops| - 1]); }
  }

  /** Put bytes, then let any puts, failed uploads, reads and cache damage follow,
      only no object at the same address: a read that reaches the remote returns the
      bytes that were put, and `has` reports them. */
  lemma PutRawThenRead<O(!new)>(c: Codec<O>, s: World, bytes: Bytes, rejected: bool, w: WriteLuck,
                                ops: seq<Op<O>>, luck: ReadLuck)
    requires Lossless(c) && Collisionless(c) && RemoteUnharmed(ops) && luck.reachable
    requires Stored(c, s.cache, s.remote, c.digest(bytes), bytes, rejected, w).ok
    requires forall i :: 0 <= i < |ops| ==> KeepsRaw(c, ops[i], c.digest(bytes))
    ensures var (end, h) := (RunOps(c, Next(c, s, PutRaw(bytes, rejected, w)), ops), c.digest(bytes));
            && ReadResult(c, end.cache, end.remote, h, CheckRaw(c, h), luck) == Done(bytes)
            && Reported(end.cache, end.remote, h, true)
  {
    hide RunOps;
    RawStays(c, Next(c, s, PutRaw(bytes, rejected, w)), bytes, ops);
  }

  /** The same for an object, with only no raw put at its address. */
  lemma PutTypedThenRead<O(!new)>(c: Codec<O>, s: World, o: O, rejected: bool, w: WriteLuck,
                                  ops: seq<Op<O>>, luck: ReadLuck)
    requires Lossless(c) && Collisionless(c) && RemoteUnharmed(ops) && luck.reachable
    requires Stored(c, s.cache, s.remote, c.addr(o), c.write(o), rejected, w).ok
    requires forall i :: 0 <= i < |ops| ==> KeepsTyped(c, ops[i], c.addr(o))
    ensures var (end, h) := (RunOps(c, Next(c, s, PutTyped(o, rejected, w)), ops), c.addr(o));
            && ReadResult(c, end.cache, end.remote, h, CheckTyped(c, h), luck) == Done(o)
            && Reported(end.cache, end.remote, h, true)
  {
    hide RunOps;
    TypedStays(c, Next(c, s, PutTyped(o, rejected, w)), o, ops);
  }

  /** Why the two forms must be kept apart: a blob's address is the digest of its
      payload, so storing the blob replaces raw bytes put under that address, and
      they can no longer be read. */
  lemma TypedPutShadowsRaw<O(!new)>(c: Codec<O>, s: World, bytes: Bytes, o: O, w: WriteLuck, luck: ReadLuck)
    requires Lossless(c) && c.addr(o) == c.digest(bytes) && c.digest(c.write(o)) != c.digest(bytes)
    requires w.cached && w.uploaded && !Blocked(s.cache, c.digest(bytes))
    ensures var h := c.digest(bytes);
            var end := RunOps(c, s, [PutRaw(bytes, false, w), PutTyped(o, false, w)]);
            && ReadResult(c, end.cache, end.remote, h, CheckRaw(c, h), luck).Failed?
            && (luck.reachable ==> ReadResult(c, end.cache, end.remote, h, CheckTyped(c, h), luck) == Done(o))
  {
    var ops := [PutRaw(bytes, false, w), PutTyped(o, false, w)];
    assert ops[..1] == [PutRaw(bytes, false, w)] && ops[..1][..0] == [];
    assert RunOps(c, s, ops[..1]) == Next(c, s, ops[0]);
    assert RunOps(c, s, ops) == Next(c, Next(c, s, ops[0]), ops[1]);
  }

  // ------------------------------------------------------------- one put, one read

  /** A put goes through exactly if the scanner, the cache and the upload let it. Then
      both sides hold the payload at its address; otherwise the remote is as it was. */
  lemma PutSucceedsIff<O(!new)>(c: Codec<O>, s: World, h: Hash, bytes: Bytes, rejected: bool, luck: WriteLuck)
    requires Lossless(c)
    ensures var w := Stored(c, s.cache, s.remote, h, bytes, rejected, luck);
            && (w.ok <==> !rejected && luck.cached && luck.uploaded && !(h in s.cache && s.cache[h].DirectoryEntry?))
            && (w.ok ==>
                && h in w.cache && h in w.remote && w.cache[h] == File(w.remote[h]) && c.decode(w.remote[h]) == Some(bytes)
                && h !in AfterPut(c, s, h, bytes, rejected, luck).tampered)
            && (!w.ok ==> w.remote == s.remote)
            && (forall k :: k != h ==>
                && (k in w.cache <==> k in s.cache) && (k in s.cache ==> w.cache[k] == s.cache[k])
                && (k in w.remote <==> k in s.remote) && (k in s.remote ==> w.remote[k] == s.remote[k]))
  {
  }

  /** A put that failed is not seen: refused, or unable to write the cache, it touched
      nothing; after a failed upload whose rollback worked, the address is read, and
      reported, as a store without a cache would. */
  lemma FailedPutUnseen<O, T>(c: Codec<O>, s: World, h: Hash, bytes: Bytes, rejected: bool, luck: WriteLuck,
                              check: Bytes -> Outcome<T>, r: ReadLuck)
    requires !Stored(c, s.cache, s.remote, h, bytes, rejected, luck).ok
    ensures var s' := AfterPut(c, s, h, bytes, rejected, luck);
            && (rejected || !luck.cached || Blocked(s.cache, h) ==> s' == s)
            && (!rejected && luck.cached && !Blocked(s.cache, h) && luck.unlinked ==>
                && ReadResult(c, s'.cache, s'.remote, h, check, r) == Plain(c, s.remote, h, check, r.reachable)
                && (Reported(s'.cache, s'.remote, h, r.reachable) <==> r.reachable && h in s.remote))
  {
  }

  /** If the rollback fails too, the entry that stays is the payload, and is served. */
  lemma StrandedEntryServed<O(!new), T>(c: Codec<O>, s: World, h: Hash, bytes: Bytes, luck: WriteLuck,
                                        check: Bytes -> Outcome<T>, r: ReadLuck)
    requires Lossless(c) && luck.cached && !luck.uploaded && !luck.unlinked && !Blocked(s.cache, h)
    requires check(bytes).Done? && r.readable
    ensures var s' := AfterPut(c, s, h, bytes, false, luck);
            s'.remote == s.remote && ReadResult(c, s'.cache, s'.remote, h, check, r) == check(bytes)
  {
  }

  /** A cache entry that cannot be read, or does not check, is never served; if it can
      be evicted it is gone, and in its place is at most the download just verified. */
  lemma BadEntryGone<O, T>(c: Codec<O>, s: World, h: Hash, check: Bytes -> Outcome<T>, luck: ReadLuck)
    requires h in s.cache ==>
      !luck.readable || s.cache[h].DirectoryEntry? || c.decode(s.cache[h].data).None?
      || check(c.decode(s.cache[h].data).value).Failed?
    ensures var (s', r) := (AfterGet(c, s, h, check, luck), ReadResult(c, s.cache, s.remote, h, check, luck));
            && r == Plain(c, s.remote, h, check, luck.reachable) && s'.remote == s.remote
            && (luck.evictable ==>
                && h !in s'.tampered
                && (h in s'.cache <==> r.Done? && luck.writable)
                && (h in s'.cache ==> s'.cache[h] == File(s.remote[h])))
            && (!luck.evictable && (r.Failed? || !luck.writable || Blocked(s.cache, h)) ==> s' == s)
            && (!luck.evictable && r.Done? && luck.writable && !Blocked(s.cache, h) ==>
                h in s'.cache && s'.cache[h] == File(s.remote[h]) && h !in s'.tampered)
            && (forall k :: k != h ==> (k in s'.cache <==> k in s.cache) && (k in s.cache ==> s'.cache[k] == s.cache[k]))
  {
  }

  /** A verified entry is served without the remote, and left alone. */
  lemma GoodEntryServed<O, T>(c: Codec<O>, s: World, h: Hash, check: Bytes -> Outcome<T>, luck: ReadLuck)
    requires h in s.cache && luck.readable && s.cache[h].File? && c.decode(s.cache[h].data).Some?
    requires check(c.decode(s.cache[h].data).value).Done?
    ensures ReadResult(c, s.cache, s.remote, h, check, luck) == check(c.decode(s.cache[h].data).value)
    ensures AfterGet(c, s, h, check, luck) == s.(tampered := s.tampered - {h})
  {
  }

  /** Damage can leave anything, or nothing, at any address on either side, and counts
      against the cache only there. */
  lemma DamageReaches<O>(c: Codec<O>, s: World, h: Hash, e: Option<Entry>, d: Option<Bytes>)
    ensures var s' := Next(c, Next(c, s, DamageCache(h, e)), DamageRemote(h, d));
            && Lookup(s'.cache, h) == e && Lookup(s'.remote, h) == d && s'.tampered == s.tampered + {h}
            && forall k :: k != h ==> Lookup(s'.cache, k) == Lookup(s.cache, k) && Lookup(s'.remote, k) == Lookup(s.remote, k)
  {
  }
}
