/** The files of the Agent artifact cache and the eviction rule of `_make_space`.

    A digest is 64 lower-case hexadecimal digits, so it is represented by the number it
    denotes: fixed-length lower-case hexadecimal sorts as text exactly as it does as a number. */
module Eviction {
  newtype Byte = x: int | 0 <= x < 256

  type Digest = nat

  datatype File = File(content: seq<Byte>, atime: int, mtime: int)

  /** The `<root>/<digest>/content` files. */
  type Store = map<Digest, File>

  /** What the directory scan collects for one file. */
  datatype Entry = Entry(atime: int, mtime: int, digest: Digest)

  /** The order Python gives to the scanned tuples. */
  predicate Less(a: Entry, b: Entry) {
    || a.atime < b.atime
    || (a.atime == b.atime && a.mtime < b.mtime)
    || (a.atime == b.atime && a.mtime == b.mtime && a.digest < b.digest)
  }

  predicate Ascending(q: seq<Entry>) {
    forall i, j :: 0 <= i < j < |q| ==> Less(q[i], q[j])
  }

  function EntryOf(files: Store, d: Digest): Entry
    requires d in files
  {
    Entry(files[d].atime, files[d].mtime, d)
  }

  /** q lists every file once, least recently used first. */
  ghost predicate IsListing(files: Store, q: seq<Entry>) {
    && Ascending(q)
    && (forall e :: e in q ==> e.digest in files && e == EntryOf(files, e.digest))
    && (forall d :: d in files ==> EntryOf(files, d) in q)
  }

  function Insert(q: seq<Entry>, e: Entry): (r: seq<Entry>)
    requires Ascending(q)
    requires forall x :: x in q ==> x.digest != e.digest
    ensures Ascending(r)
    ensures forall x :: x in r <==> x == e || x in q
  {
    if q == [] then [e]
    else if Less(e, q[0]) then [e] + q
    else
      var rest := Insert(q[1..], e);
      assert forall x :: x in q <==> x == q[0] || x in q[1..];
      assert Less(q[0], e);
      assert forall x :: x in q[1..] ==> Less(q[0], x);
      assert forall k :: 0 <= k < |rest| ==> rest[k] in rest;
      [q[0]] + rest
  }

  /** There is only one such listing, so sorting in any way yields it. */
  lemma {:induction false} ListingUnique(files: Store, p: seq<Entry>, q: seq<Entry>)
    requires IsListing(files, p) && IsListing(files, q)
    ensures p == q
  {
    ListingEmpty(files, p);
    ListingEmpty(files, q);
    if p != [] {
      HeadsAgree(files, p, q);
      var d := p[0].digest;
      ListingTail(files, p);
      ListingTail(files, q);
      ListingUnique(files - {d}, p[1..], q[1..]);
      assert p == [p[0]] + p[1..];
      assert q == [q[0]] + q[1..];
    }
  }

  lemma {:induction false} HeadsAgree(files: Store, p: seq<Entry>, q: seq<Entry>)
    requires IsListing(files, p) && IsListing(files, q) && p != [] && q != []
    ensures p[0] == q[0]
  {
    assert p[0] in p && q[0] in q;
    assert p[0] == EntryOf(files, p[0].digest) && q[0] == EntryOf(files, q[0].digest);
    HeadIsLeast(p, q[0]);
    HeadIsLeast(q, p[0]);
  }

  lemma {:induction false} HeadIsLeast(q: seq<Entry>, e: Entry)
    requires Ascending(q) && e in q
    ensures e == q[0] || Less(q[0], e)
  {
  }

  lemma {:induction false} ListingEmpty(files: Store, q: seq<Entry>)
    requires IsListing(files, q)
    ensures q == [] <==> files == map[]
  {
    if q != [] {
      assert q[0] in q;
    } else {
      assert files.Keys == {};
    }
  }

  lemma {:induction false} ListingTail(files: Store, q: seq<Entry>)
    requires IsListing(files, q) && q != []
    ensures IsListing(files - {q[0].digest}, q[1..])
  {
    var d := q[0].digest;
    var rest := files - {d};
    forall e | e in q[1..] ensures e.digest in rest && e == EntryOf(rest, e.digest) {
      var k :| 1 <= k < |q| && q[k] == e;
      assert q[k] in q && q[0] in q && Less(q[0], q[k]);
    }
    forall x | x in rest ensures EntryOf(rest, x) in q[1..] {
      var k :| 0 <= k < |q| && q[k] == EntryOf(files, x);
      assert k != 0;
      assert q[k] == q[1..][k - 1];
    }
  }

  lemma {:induction false} ListingInsert(files: Store, d: Digest, q: seq<Entry>)
    requires d in files && IsListing(files - {d}, q)
    ensures forall x :: x in q ==> x.digest != d
    ensures IsListing(files, Insert(q, EntryOf(files, d)))
  {
    var rest := files - {d};
    forall x | x in q ensures x.digest != d && EntryOf(files, x.digest) == x {
      assert x.digest in rest;
    }
    forall x | x in files && x != d ensures EntryOf(files, x) in q {
      assert x in rest && EntryOf(rest, x) in q;
    }
  }

  lemma {:induction false} ListingExists(files: Store)
    ensures exists q :: IsListing(files, q)
    decreases |files|
  {
    if files == map[] {
      assert IsListing(files, []);
    } else {
      var d :| d in files;
      var rest := files - {d};
      assert |rest| < |files| by { assert files.Keys == rest.Keys + {d}; }
      ListingExists(rest);
      var q :| IsListing(rest, q);
      ListingInsert(files, d, q);
    }
  }

  ghost function Listing(files: Store): (q: seq<Entry>)
    ensures IsListing(files, q)
  {
    ListingExists(files);
    var q :| IsListing(files, q);
    q
  }

  // ---- byte totals ----

  function Size(files: Store, d: Digest): nat
    requires d in files
  {
    |files[d].content|
  }

  ghost function Total(files: Store): nat
    decreases |files|
  {
    if files == map[] then 0
    else
      var d :| d in files;
      assert files.Keys == (files - {d}).Keys + {d};
      Size(files, d) + Total(files - {d})
  }

  lemma {:induction false} TotalWithout(files: Store, d: Digest)
    requires d in files
    ensures Total(files) == Size(files, d) + Total(files - {d})
    decreases |files|
  {
    var x :| x in files && Total(files) == Size(files, x) + Total(files - {x});
    if x != d {
      assert files.Keys == (files - {x}).Keys + {x};
      assert files.Keys == (files - {d}).Keys + {d};
      TotalWithout(files - {x}, d);
      TotalWithout(files - {d}, x);
      assert (files - {x}) - {d} == (files - {d}) - {x};
      assert Size(files - {x}, d) == Size(files, d) && Size(files - {d}, x) == Size(files, x);
    }
  }

  lemma {:induction false} TotalWith(files: Store, d: Digest, f: File)
    ensures Total(files[d := f]) == |f.content| + Total(files - {d})
    ensures Total(files - {d}) <= Total(files)
    ensures Total(files[d := f]) <= |f.content| + Total(files)
  {
    TotalWithout(files[d := f], d);
    assert files[d := f] - {d} == files - {d};
    if d in files {
      TotalWithout(files, d);
    } else {
      assert files - {d} == files;
    }
  }

  /** Changing only the time stamps of one file leaves the total alone. */
  lemma {:induction false} TotalRetimed(files: Store, d: Digest, f: File)
    requires d in files && f.content == files[d].content
    ensures Total(files[d := f]) == Total(files)
  {
    TotalWith(files, d, f);
    TotalWithout(files, d);
  }

  function Distinct(ds: seq<Digest>): bool {
    forall i, j :: 0 <= i < j < |ds| ==> ds[i] != ds[j]
  }

  function SeqBytes(files: Store, ds: seq<Digest>): nat
    requires forall d :: d in ds ==> d in files
  {
    if ds == [] then 0 else SeqBytes(files, ds[..|ds| - 1]) + Size(files, ds[|ds| - 1])
  }

  function ToSet(ds: seq<Digest>): set<Digest> {
    set d | d in ds
  }

  lemma {:induction false} TotalWithoutSeq(files: Store, ds: seq<Digest>)
    requires Distinct(ds)
    requires forall d :: d in ds ==> d in files
    ensures Total(files - ToSet(ds)) + SeqBytes(files, ds) == Total(files)
  {
    if ds == [] {
      assert files - ToSet(ds) == files;
    } else {
      var init, last := ds[..|ds| - 1], ds[|ds| - 1];
      assert ds == init + [last];
      TotalWithoutSeq(files, init);
      TotalWithout(files - ToSet(init), last);
      assert (files - ToSet(init)) - {last} == files - ToSet(ds);
    }
  }

  // ---- the eviction rule ----

  /** Pin counts; an absent key counts as zero. */
  type Pins = map<Digest, nat>

  function PinsOf(pins: Pins, d: Digest): nat {
    if d in pins then pins[d] else 0
  }

  predicate Kept(pins: Pins, retaining: Digest, d: Digest) {
    d == retaining || PinsOf(pins, d) > 0
  }

  /** The entries that may go, in listing order. */
  function Evictable(q: seq<Entry>, pins: Pins, retaining: Digest): seq<Digest> {
    if q == [] then []
    else
      var init := Evictable(q[..|q| - 1], pins, retaining);
      var e := q[|q| - 1];
      if Kept(pins, retaining, e.digest) then init else init + [e.digest]
  }

  lemma {:induction false} EvictableMembers(q: seq<Entry>, pins: Pins, retaining: Digest)
    ensures forall d :: d in Evictable(q, pins, retaining) <==>
              (exists e :: e in q && e.digest == d && !Kept(pins, retaining, d))
  {
    if q != [] {
      EvictableMembers(q[..|q| - 1], pins, retaining);
      assert q == q[..|q| - 1] + [q[|q| - 1]];
    }
  }

  /** ds names files of the store, each older than the next. */
  ghost predicate OldestFirst(files: Store, ds: seq<Digest>) {
    && (forall d :: d in ds ==> d in files)
    && forall i, j :: 0 <= i < j < |ds| ==> Less(EntryOf(files, ds[i]), EntryOf(files, ds[j]))
  }

  lemma {:induction false} EvictableOldestFirst(files: Store, q: seq<Entry>, pins: Pins, retaining: Digest)
    requires Ascending(q)
    requires forall e :: e in q ==> e.digest in files && e == EntryOf(files, e.digest)
    ensures OldestFirst(files, Evictable(q, pins, retaining))
  {
    if q != [] {
      var init, e := q[..|q| - 1], q[|q| - 1];
      assert q == init + [e];
      EvictableOldestFirst(files, init, pins, retaining);
      EvictableMembers(init, pins, retaining);
      forall d | d in Evictable(init, pins, retaining) ensures Less(EntryOf(files, d), e) {
        var x :| x in init && x.digest == d;
        var k :| 0 <= k < |init| && init[k] == x;
        assert Less(q[k], q[|q| - 1]);
      }
    }
  }

  /** The first n of ds are the fewest, from the front, that free at least `over` bytes, or all of ds. */
  ghost predicate Fewest(files: Store, ds: seq<Digest>, over: int, n: nat)
    requires forall d :: d in ds ==> d in files
  {
    && n <= |ds|
    && (forall m :: 0 <= m < n ==> SeqBytes(files, ds[..m]) < over)
    && (n < |ds| ==> SeqBytes(files, ds[..n]) >= over)
  }

  lemma {:induction false} FewestExists(files: Store, ds: seq<Digest>, over: int, k: nat)
    requires forall d :: d in ds ==> d in files
    requires k <= |ds| && forall m :: 0 <= m < k ==> SeqBytes(files, ds[..m]) < over
    ensures exists n: nat :: Fewest(files, ds, over, n)
    decreases |ds| - k
  {
    if k == |ds| || SeqBytes(files, ds[..k]) >= over {
      assert Fewest(files, ds, over, k);
    } else {
      FewestExists(files, ds, over, k + 1);
    }
  }

  ghost function Needed(files: Store, ds: seq<Digest>, over: int): (n: nat)
    requires forall d :: d in ds ==> d in files
    ensures Fewest(files, ds, over, n)
  {
    FewestExists(files, ds, over, 0);
    var n: nat :| Fewest(files, ds, over, n);
    n
  }

  lemma {:induction false} NeededIs(files: Store, ds: seq<Digest>, over: int, n: nat)
    requires forall d :: d in ds ==> d in files
    requires Fewest(files, ds, over, n)
    ensures n == Needed(files, ds, over)
  {
  }

  datatype Space = Space(files: Store, ok: bool)

  ghost function Candidates(files: Store, pins: Pins, retaining: Digest): (ds: seq<Digest>)
    ensures OldestFirst(files, ds) && Distinct(ds)
    ensures forall d :: d in ds <==> d in files && !Kept(pins, retaining, d)
  {
    var q := Listing(files);
    EvictableOldestFirst(files, q, pins, retaining);
    EvictableMembers(q, pins, retaining);
    assert forall d :: d in files ==> EntryOf(files, d) in q;
    Evictable(q, pins, retaining)
  }

  /** The outcome of one `_make_space` call: the files left, and whether it returned normally. */
  ghost function MakeSpace(files: Store, pins: Pins, retaining: Digest, required: nat, maximum: nat): Space {
    var ds := Candidates(files, pins, retaining);
    var n := Needed(files, ds, Total(files) + required - maximum);
    Space(files - ToSet(ds[..n]), Total(files) + required - SeqBytes(files, ds[..n]) <= maximum)
  }

  /** Bytes that no eviction can free. */
  ghost function KeptBytes(files: Store, pins: Pins, retaining: Digest): nat {
    Total(map d | d in files && Kept(pins, retaining, d) :: files[d])
  }

  lemma {:induction false} PrefixFacts(files: Store, ds: seq<Digest>, n: nat)
    requires n <= |ds| && Distinct(ds)
    requires forall d :: d in ds ==> d in files
    ensures Distinct(ds[..n])
    ensures forall d :: d in ds[..n] ==> d in files
    ensures Total(files - ToSet(ds[..n])) + SeqBytes(files, ds[..n]) == Total(files)
  {
    TotalWithoutSeq(files, ds[..n]);
  }

  lemma {:induction false} KeptIsRest(files: Store, pins: Pins, retaining: Digest)
    ensures var ds := Candidates(files, pins, retaining);
      && files - ToSet(ds) == (map d | d in files && Kept(pins, retaining, d) :: files[d])
      && KeptBytes(files, pins, retaining) + SeqBytes(files, ds) == Total(files)
  {
    var ds := Candidates(files, pins, retaining);
    assert files - ToSet(ds) == (map d | d in files && Kept(pins, retaining, d) :: files[d]);
    TotalWithoutSeq(files, ds);
  }

  lemma {:induction false} SeqBytesMonotone(files: Store, ds: seq<Digest>, n: nat)
    requires n <= |ds|
    requires forall d :: d in ds ==> d in files
    ensures SeqBytes(files, ds[..n]) <= SeqBytes(files, ds)
    decreases |ds| - n
  {
    if n == |ds| {
      assert ds[..n] == ds;
    } else {
      SeqBytesMonotone(files, ds, n + 1);
      assert ds[..n + 1][..n] == ds[..n];
    }
  }

  /** `_make_space` succeeds exactly when the unevictable bytes and the request fit. */
  lemma {:induction false} MakeSpaceSucceedsIff(files: Store, pins: Pins, retaining: Digest, required: nat, maximum: nat)
    ensures MakeSpace(files, pins, retaining, required, maximum).ok
        <==> KeptBytes(files, pins, retaining) + required <= maximum
  {
    var ds := Candidates(files, pins, retaining);
    var n := Needed(files, ds, Total(files) + required - maximum);
    KeptIsRest(files, pins, retaining);
    SeqBytesMonotone(files, ds, n);
    if n == |ds| {
      assert ds[..n] == ds;
    }
  }

  /** What it deletes: a prefix of the evictable entries, least recently used first; on success no
      shorter prefix would do, on failure every evictable entry is gone. */
  lemma {:induction false} MakeSpaceDeletes(files: Store, pins: Pins, retaining: Digest, required: nat, maximum: nat)
    returns (ds: seq<Digest>, n: nat)
    ensures n <= |ds| && OldestFirst(files, ds)
    ensures forall d :: d in ds <==> d in files && d != retaining && !(d in pins && pins[d] > 0)
    ensures var r := MakeSpace(files, pins, retaining, required, maximum);
      && r.files == files - ToSet(ds[..n])
      && (forall m :: 0 <= m < n ==> Total(files - ToSet(ds[..m])) + required > maximum)
      && (r.ok ==> Total(r.files) + required <= maximum)
      && (!r.ok ==> n == |ds| && Total(r.files) + required > maximum)
  {
    ds := Candidates(files, pins, retaining);
    n := Needed(files, ds, Total(files) + required - maximum);
    PrefixFacts(files, ds, n);
    forall m | 0 <= m < n ensures Total(files - ToSet(ds[..m])) + required > maximum {
      PrefixFacts(files, ds, m);
    }
  }

  /** a was used less recently than b; ties go by the time of writing, then by the digest. */
  predicate Staler(files: Store, a: Digest, b: Digest)
    requires a in files && b in files
  {
    || files[a].atime < files[b].atime
    || (files[a].atime == files[b].atime && files[a].mtime < files[b].mtime)
    || (files[a].atime == files[b].atime && files[a].mtime == files[b].mtime && a < b)
  }

  /** Whatever goes was used less recently than whatever could have gone and stays. */
  lemma {:induction false} EvictsStalest(files: Store, pins: Pins, retaining: Digest, required: nat, maximum: nat,
      gone: Digest, stays: Digest)
    requires var r := MakeSpace(files, pins, retaining, required, maximum).files;
      && gone in files && gone !in r
      && stays in r && stays != retaining && !(stays in pins && pins[stays] > 0)
    ensures stays in files && Staler(files, gone, stays)
    ensures gone != retaining && !(gone in pins && pins[gone] > 0)
  {
    MakeSpaceKeeps(files, pins, retaining, required, maximum);
    var ds, n := MakeSpaceDeletes(files, pins, retaining, required, maximum);
    assert stays in ds && gone in ds;
    var i :| 0 <= i < n && ds[i] == gone;
    var j :| 0 <= j < |ds| && ds[j] == stays;
    forall m | 0 <= m < n ensures ds[m] != stays {
      assert ds[..n][m] in ToSet(ds[..n]);
    }
    assert Less(EntryOf(files, ds[i]), EntryOf(files, ds[j]));
  }

  /** The consequences the protocol relies on. */
  lemma {:induction false} MakeSpaceKeeps(files: Store, pins: Pins, retaining: Digest, required: nat, maximum: nat)
    ensures var r := MakeSpace(files, pins, retaining, required, maximum);
      && (forall d :: d in r.files ==> d in files && r.files[d] == files[d])
      && (forall d :: d in files && Kept(pins, retaining, d) ==> d in r.files)
      && Total(r.files) <= Total(files)
      && (r.ok ==> Total(r.files) + required <= maximum)
  {
    var ds := Candidates(files, pins, retaining);
    var n := Needed(files, ds, Total(files) + required - maximum);
    PrefixFacts(files, ds, n);
  }

  /** Nothing is evicted while the request fits as it is. */
  lemma {:induction false} MakeSpaceIdle(files: Store, pins: Pins, retaining: Digest, required: nat, maximum: nat)
    requires Total(files) + required <= maximum
    ensures MakeSpace(files, pins, retaining, required, maximum) == Space(files, true)
  {
    var ds := Candidates(files, pins, retaining);
    var n := Needed(files, ds, Total(files) + required - maximum);
    assert SeqBytes(files, ds[..0]) == 0;
    assert n == 0;
    assert files - ToSet(ds[..0]) == files;
  }
}
