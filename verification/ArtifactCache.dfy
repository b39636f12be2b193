/** `AgentArtifactCache` as an object: its methods run to completion here, and each is tied to the
    specification functions that the interleaved protocol is built from. */
module ArtifactCache {
  import opened Wrappers
  import opened Eviction
  import opened Transfers
  import CacheProtocol
  import opened FetchAlone

  type Descriptor = CacheProtocol.Descriptor

  class AgentArtifactCache {
    const maximum: nat
    const hash: Hash
    var files: Store       // the `<root>/*/content` files
    var pinCounts: Pins

    constructor (maximum: nat, hash: Hash, files: Store)
      requires 0 < maximum
      ensures this.maximum == maximum && this.hash == hash && this.files == files && pinCounts == map[]
    {
      this.maximum, this.hash, this.files, this.pinCounts := maximum, hash, files, map[];
    }

    /** A bound that is not positive is refused. */
    static method Create(maximum: int, hash: Hash, files: Store) returns (r: Outcome<AgentArtifactCache>)
      ensures r.Ok? <==> 0 < maximum
      ensures r.Ok? ==> fresh(r.value) && r.value.maximum == maximum && r.value.hash == hash
      ensures r.Ok? ==> r.value.files == files && r.value.pinCounts == map[]
    {
      if maximum <= 0 {
        return Failed;
      }
      var cache := new AgentArtifactCache(maximum, hash, files);
      r := Ok(cache);
    }

    ghost function Cfg(): CacheProtocol.Config {
      CacheProtocol.Config(maximum, hash)
    }

    method Pin(digest: Digest)
      modifies this`pinCounts
      ensures pinCounts == CacheProtocol.AddPin(old(pinCounts), digest)
    {
      pinCounts := pinCounts[digest := (if digest in pinCounts then pinCounts[digest] else 0) + 1];
    }

    method Release(digest: Digest)
      modifies this`pinCounts
      ensures pinCounts == CacheProtocol.DropPin(old(pinCounts), digest)
    {
      var count := if digest in pinCounts then pinCounts[digest] else 0;
      if count <= 1 {
        pinCounts := pinCounts - {digest};
      } else {
        pinCounts := pinCounts[digest := count - 1];
      }
    }

    /** One fetch with nothing interleaved, which is a run of the protocol by `AloneIsARun`.  `permitted`
        stands for the origin and expiry checks. */
    method Fetch(desc: Descriptor, pin: bool, permitted: bool, response: Response, now: int) returns (ok: bool)
      modifies this`files, this`pinCounts
      ensures Fetched(ok, files, pinCounts)
           == Alone(Cfg(), old(files), old(pinCounts), desc, pin, permitted, response, now)
      ensures ok <==> permitted && desc.size <= maximum && Servable(Cfg(), old(files), old(pinCounts), desc, response)
      ensures ok ==> Matching(hash, files, desc) && Total(files) <= maximum && UsedAt(files, desc.digest, now)
      ensures OthersKept(old(files), files, old(pinCounts), desc.digest)
      ensures if ok && pin then pinCounts == CacheProtocol.AddPin(old(pinCounts), desc.digest)
              else forall d :: PinsOf(pinCounts, d) == PinsOf(old(pinCounts), d)
    {
      AloneMeans(Cfg(), files, pinCounts, desc, pin, permitted, response, now);
      ok := FetchPinned(desc, pin, permitted, response, now);
    }

    method FetchPinned(desc: Descriptor, pin: bool, permitted: bool, response: Response, now: int) returns (ok: bool)
      modifies this`files, this`pinCounts
      ensures Fetched(ok, files, pinCounts)
           == Alone(Cfg(), old(files), old(pinCounts), desc, pin, permitted, response, now)
    {
      if !permitted || desc.size > maximum {
        return false;
      }
      if pin {
        Pin(desc.digest);
      }
      ok := FetchLocked(desc, response, now);
      if !ok && pin {
        Release(desc.digest);
      }
    }

    /** The part of a fetch that runs under the digest lock. */
    method FetchLocked(desc: Descriptor, response: Response, now: int) returns (ok: bool)
      modifies this`files
      ensures Space(files, ok) == Served(Cfg(), old(files), pinCounts, desc, response, now)
    {
      var d := desc.digest;
      if d in files {
        var hashed := HashFile(files[d].content, maximum, hash);
        if hashed.Failed? {
          return false;
        }
        if hashed.value.size == desc.size && hashed.value.digest == d {
          ok := Reuse(desc, now);
          return;
        }
        files := files - {d};
      }
      assert files == old(files) - {d};
      ok := Acquire(desc, response, now);
    }

    /** A hit: refresh the time stamps and make space for nothing more. */
    method Reuse(desc: Descriptor, now: int) returns (ok: bool)
      requires desc.digest in files
      modifies this`files
      ensures Space(files, ok) == Hit(Cfg(), old(files), pinCounts, desc, now)
    {
      files := files[desc.digest := File(files[desc.digest].content, now, now)];
      ok := MakeSpace(0, desc.digest);
    }

    /** A miss: make space, download, verify, put in place. */
    method Acquire(desc: Descriptor, response: Response, now: int) returns (ok: bool)
      modifies this`files
      ensures Space(files, ok) == Miss(Cfg(), old(files), pinCounts, desc, response, now)
    {
      MakeSpaceKeeps(files, pinCounts, desc.digest, desc.size, maximum);
      ok := MakeSpace(desc.size, desc.digest);
      if ok {
        var received, written := Download(response, desc.size, maximum, hash);
        if received.Failed? || received.value.size != desc.size || received.value.digest != desc.digest {
          return false;
        }
        files := files[desc.digest := File(written, now, now)];
      }
    }

    /** The directory scan, in whatever order the file system yields, and Python's `sorted`. */
    method Scan() returns (entries: seq<Entry>, total: nat)
      ensures IsListing(files, entries) && total == Total(files)
    {
      entries, total := [], 0;
      var all := files;
      var left := all;
      ghost var seen: Store := map[];
      while left != map[]
        invariant Split(all, left, seen) && IsListing(seen, entries)
        invariant total + Total(left) == Total(all)
        decreases |left|
      {
        var d :| d in left;
        SplitStep(all, left, seen, d);
        LeftStep(left, d);
        ListingGrows(seen, entries, d, all[d]);
        total := total + |left[d].content|;
        entries := Insert(entries, EntryOf(all, d));
        left := left - {d};
        seen := seen[d := all[d]];
      }
      assert seen == all;
    }

    /** Deletes the shortest sufficient prefix of the evictable entries, or all of them and fails. */
    method MakeSpace(required: nat, retaining: Digest) returns (ok: bool)
      modifies this`files
      ensures var space := Eviction.MakeSpace(old(files), pinCounts, retaining, required, maximum);
        files == space.files && ok == space.ok
    {
      var entries, total := Scan();
      ListingUnique(files, entries, Listing(files));
      EvictableOldestFirst(files, entries, pinCounts, retaining);
      ghost var before := files;
      var target, n := Sweep(entries, total + required, retaining);
      NeededIs(before, Candidates(before, pinCounts, retaining), total + required - maximum, n);
      ok := target <= maximum;
    }

    method MustStay(digest: Digest, retaining: Digest) returns (stays: bool)
      ensures stays == Kept(pinCounts, retaining, digest)
    {
      stays := digest == retaining || (digest in pinCounts && pinCounts[digest] > 0);
    }

    /** The eviction loop over the sorted entries; n counts the files it deletes.  It runs without a
        suspension point, so the deletions are collected in `left` and seen by others all at once. */
    method Sweep(entries: seq<Entry>, total: nat, retaining: Digest) returns (target: int, ghost n: nat)
      requires OldestFirst(files, Evictable(entries, pinCounts, retaining))
      modifies this`files
      ensures SweptAll(old(files), files, Evictable(entries, pinCounts, retaining), total, maximum, n, target)
    {
      ghost var before := files;
      var pins := pinCounts;
      n := 0;
      target := total;
      var k := 0;
      SweptStart(files, entries, pins, retaining, total, maximum);
      var left, bound := files, maximum;
      while k < |entries| && target > bound
        invariant Swept(before, left, entries, pins, retaining, total, bound, k, n, target)
      {
        var digest := entries[k].digest;
        SweptStep(before, left, entries, pins, retaining, total, bound, k, n, target);
        var stays := MustStay(digest, retaining);
        if !stays {
          target := target - |left[digest].content|;
          left := left - {digest};
          n := n + 1;
        }
        k := k + 1;
      }
      files := left;
      SweptDone(before, files, entries, pins, retaining, total, maximum, k, n, target);
    }
  }

  // ---- the loops ----

  /** left and seen divide the files between them. */
  ghost predicate Split(files: Store, left: Store, seen: Store) {
    && left.Keys !! seen.Keys && left.Keys + seen.Keys == files.Keys
    && (forall d :: d in left ==> left[d] == files[d])
    && (forall d :: d in seen ==> seen[d] == files[d])
  }

  lemma {:induction false} SplitStep(files: Store, left: Store, seen: Store, d: Digest)
    requires Split(files, left, seen) && d in left
    ensures Split(files, left - {d}, seen[d := files[d]])
  {
  }

  lemma {:induction false} LeftStep(left: Store, d: Digest)
    requires d in left
    ensures Total(left) == |left[d].content| + Total(left - {d})
    ensures |left - {d}| < |left|
  {
    TotalWithout(left, d);
    assert left.Keys == (left - {d}).Keys + {d};
  }

  lemma {:induction false} ListingGrows(seen: Store, q: seq<Entry>, d: Digest, f: File)
    requires IsListing(seen, q) && d !in seen
    ensures forall x :: x in q ==> x.digest != d
    ensures IsListing(seen[d := f], Insert(q, EntryOf(seen[d := f], d)))
  {
  }

  /** The evictable entries of a prefix of the listing are a prefix of the evictable entries. */
  lemma {:induction false} EvictablePrefix(q: seq<Entry>, k: nat, pins: Pins, retaining: Digest)
    requires k <= |q|
    ensures Evictable(q[..k], pins, retaining) <= Evictable(q, pins, retaining)
    decreases |q| - k
  {
    if k == |q| {
      assert q[..k] == q;
    } else {
      EvictablePrefix(q, k + 1, pins, retaining);
      assert q[..k + 1][..k] == q[..k];
    }
  }

  lemma {:induction false} EvictableStep(q: seq<Entry>, k: nat, pins: Pins, retaining: Digest)
    requires k < |q|
    ensures Evictable(q[..k + 1], pins, retaining)
         == Evictable(q[..k], pins, retaining) + if Kept(pins, retaining, q[k].digest) then [] else [q[k].digest]
    ensures Evictable(q[..k + 1], pins, retaining) <= Evictable(q, pins, retaining)
  {
    assert q[..k + 1][..k] == q[..k];
    EvictablePrefix(q, k + 1, pins, retaining);
  }

  lemma {:induction false} EvictionStep(files: Store, ds: seq<Digest>, n: nat)
    requires OldestFirst(files, ds) && n < |ds|
    ensures ds[n] in files - ToSet(ds[..n])
    ensures SeqBytes(files, ds[..n + 1]) == SeqBytes(files, ds[..n]) + Size(files, ds[n])
    ensures (files - ToSet(ds[..n])) - {ds[n]} == files - ToSet(ds[..n + 1])
  {
    assert ds[..n + 1] == ds[..n] + [ds[n]];
    assert ds[..n + 1][..n] == ds[..n];
    assert forall k :: 0 <= k < n ==> Less(EntryOf(files, ds[k]), EntryOf(files, ds[n]));
  }

  /** The eviction loop after looking at k entries: n of the evictable ones are gone. */
  ghost predicate Swept(before: Store, after: Store, q: seq<Entry>, pins: Pins, retaining: Digest,
      total: nat, maximum: nat, k: nat, n: nat, target: int)
  {
    var ds := Evictable(q, pins, retaining);
    && OldestFirst(before, ds) && k <= |q| && n <= |ds|
    && (forall m :: 0 <= m < n ==> SeqBytes(before, ds[..m]) < total - maximum)
    && ds[..n] == Evictable(q[..k], pins, retaining)
    && after == before - ToSet(ds[..n])
    && target == total - SeqBytes(before, ds[..n])
  }

  /** The finished loop: the fewest sufficient entries of ds are gone. */
  ghost predicate SweptAll(before: Store, after: Store, ds: seq<Digest>, total: nat, maximum: nat, n: nat, target: int) {
    && OldestFirst(before, ds) && Fewest(before, ds, total - maximum, n)
    && after == before - ToSet(ds[..n])
    && target == total - SeqBytes(before, ds[..n])
  }

  lemma {:induction false} SweptStart(files: Store, q: seq<Entry>, pins: Pins, retaining: Digest, total: nat, maximum: nat)
    requires OldestFirst(files, Evictable(q, pins, retaining))
    ensures Swept(files, files, q, pins, retaining, total, maximum, 0, 0, total)
  {
    assert files - ToSet([]) == files;
  }

  lemma {:induction false} SweptStep(before: Store, after: Store, q: seq<Entry>, pins: Pins, retaining: Digest,
      total: nat, maximum: nat, k: nat, n: nat, target: int)
    requires Swept(before, after, q, pins, retaining, total, maximum, k, n, target)
    requires k < |q| && target > maximum
    ensures var d := q[k].digest;
      Kept(pins, retaining, d) ==> Swept(before, after, q, pins, retaining, total, maximum, k + 1, n, target)
    ensures var d := q[k].digest;
      !Kept(pins, retaining, d) ==> (d in after
        && Swept(before, after - {d}, q, pins, retaining, total, maximum, k + 1, n + 1, target - |after[d].content|))
  {
    var ds := Evictable(q, pins, retaining);
    EvictableStep(q, k, pins, retaining);
    if !Kept(pins, retaining, q[k].digest) {
      var next := Evictable(q[..k + 1], pins, retaining);
      assert next[n] == q[k].digest;
      assert ds[..n + 1] == next;
      EvictionStep(before, ds, n);
    }
  }

  lemma {:induction false} SweptDone(before: Store, after: Store, q: seq<Entry>, pins: Pins, retaining: Digest,
      total: nat, maximum: nat, k: nat, n: nat, target: int)
    requires Swept(before, after, q, pins, retaining, total, maximum, k, n, target)
    requires k == |q| || target <= maximum
    ensures SweptAll(before, after, Evictable(q, pins, retaining), total, maximum, n, target)
  {
    if k == |q| {
      assert q[..k] == q;
    }
  }
}
